# Pdsr.Core work dispatch, string and entity helpers, in Dafny

This project models the in-memory work-dispatch subsystem of the Pdsr libraries, plus their small pure helpers, and proves properties of the model.

**Registry.** `BackgroundTaskQueue` is a registry of four independent FIFO queues: plain, service-provider, service-scope and per-user. Each queue is paired with its own `SemaphoreSlim` counter. The registry is modelled as one class whose four queues are `WorkQueue<T>` objects. Each of those holds the queued items and the semaphore count, and keeps the pairing invariant "count == number of items".

**Consumers.** The five hosted services drain these queues. Each consumer loop is an imperative method over the registry and a `Runtime` object, which stands for the hosting environment:

- the stopping token;
- service scopes;
- the scoped session and user service;
- the delegates themselves;
- the logger.

Every interaction with the environment appends an `Event` to a log. A loop is proved to produce exactly the log of a reference function (`PlainTrace`, `ScopedTrace`, `UserTrace`) over the items it took. Lemmas about those functions prove the promised behaviour:

- each item is invoked once, in queue order, with the right context;
- a scope is opened and disposed for every item;
- the subject id is set before the user is looked up;
- an item whose user is missing is never invoked;
- one error is logged per failure, and nothing else is logged.

**Pure helpers.**

- `ToSnakeCase`: a loop proved equal to a left fold `Run`, with lemmas on its output alphabet and on where underscores go, plus the unit tests' cases.
- `Redact` and its four overloads.
- LINQ paging `Page`.
- The equality contracts of `BaseEntity`, `PdsrUserBase`, `PdsrUserBaseSubjectId` and `IsOwner`.

### Modelling choices

**Queues and delegates.**

- A queued delegate is a value `WorkItem(id)`; a null delegate is `None`.
- One class, `TaskQueues.BackgroundTaskQueue`, stands for both registries, `BackgroundTaskQueue` (lines 11-127) and `BackgroundTaskQueue<TKey, TUser>` (lines 136-255). Their method bodies are the same; they differ only in the user delegate's parameter type.
- A dequeue is modelled sequentially. Its outcome is `Cancelled` (the token was already cancelled), `WouldBlock` (count 0: the real call would wait), `Got(item)`, or `Missing`. `Missing` means the count was taken but `TryDequeue` found nothing. It is proved unreachable under the pairing invariant.

**Cancellation.**

- The stopping token is read at numbered observations. The loop head of iteration `i` is observation `2i`, and the wait inside that iteration's dequeue is `2i + 1`. Once requested, cancellation stays requested.
- A loop ends in one of three ways: the token is seen at the loop head; the wait is cancelled, and that exception propagates out of the loop because the dequeue lies outside the `try`; or the queue is empty and the wait would block.

**User lookup.**

- Which delegates throw is a function `fails` from the call (item, context, token) to `bool`.
- The user service's `GetUserAsync` is an interface (`src/Pdsr.Core/UserManagement/IUserServiceBase.cs:35`); its implementation is not part of this model. It is modelled as a lookup of the session's subject id in a user directory `users`.

### Notes on the code

The model follows the code in each of these points.

- The per-user dequeue (`BackgroundTaskQueue.cs:120-126`, and `247-253` in the generic registry) does not check that `TryDequeue` found an item; it would hand back a default pair. The model proves this case unreachable.
- `QueueUserWorkItem` rejects a null or empty subject id with an `ArgumentNullException` whose parameter name is `workItem`, the same name it uses for a null delegate.
- `Page` rejects a bad page number with an exception whose message names `source`. The model only records which check failed.
- The consumers log the exception together with the constant text `nameof(workItem)`. In the model, `ErrorLogged(ItemThrew(x))` stands for "the exception thrown by item `x`".
- The doc comment of the one-argument `Redact` (`StringExtensions.cs:75`) says it keeps five characters from the start of the string. The code passes `redactFromStart = true`, which keeps the last five (`Substring(text.Length - charsToKeep)`, line 24). `RedactDefault` states what the code does.

### PdsrUserBaseSubjectId

In `PdsrUserBaseSubjectId`, the hiding `Id` and `SubjectId` properties share one field. The inherited `Equals(ISubjectOwnable)` reads the base record's `SubjectId`, which only the constructor sets. `Domain.SubjectIdUser` models both: after `SetId`, `EqualsUser` sees the new subject, while `EqualsOwnable` still compares against the original one.

## Model

| member | source | states |
|---|---|---|
| Wrappers.Wrap32 | src/Pdsr.Data/Extensions/IEnumerableExtensions.Page.cs:15 | Unchecked C# `int` arithmetic: the result is congruent to the exact value modulo 2^32 and equals it whenever it fits |
| Domain.EqualsCore | src/Pdsr.Core/Domain/BaseEntity.cs:40-49 | The declared `EqualsCore` body: false for null and for an object that is not an entity; true only for an entity with the same `Id` |
| Domain.Equals | src/Pdsr.Core/Domain/BaseEntity.cs:20-26 | The declared `Equals(BaseEntity?)` body is false for null |
| Domain.GetHashCode | src/Pdsr.Core/Domain/BaseEntity.cs:55-58 | The declared `GetHashCode` body hashes the entity's `Id` alone |
| Domain.EqualsIffSameId | src/Pdsr.Core/Domain/BaseEntity.cs:40-49 | Under the declared `Equals(BaseEntity?)` body, two entities are equal iff their ids are; state that body does not read takes no part |
| Domain.EqualsIsEquivalence | src/Pdsr.Core/Domain/BaseEntity.cs:48 | The declared `Equals(BaseEntity?)` body is reflexive, symmetric and transitive |
| Domain.EqualsAgreesWithHash | src/Pdsr.Core/Domain/BaseEntity.cs:55-58 | Entities equal under the declared `Equals(BaseEntity?)` body have equal hash codes |
| Domain.NewKeyedEntity | src/Pdsr.Core/Domain/BaseEntity.cs:67-70 | The `BaseEntity<TKey>` constructor stores the given id |
| Domain.AsOwnable | src/Pdsr.Core/Domain/PdsrUserBase.cs:8 | A user seen as `ISubjectOwnable` has the user's subject |
| Domain.NewUser | src/Pdsr.Core/Domain/PdsrUserBase.cs:16-20 | The constructor stores `Id = id` and `SubjectId = subjectId` |
| Domain.NewUserFromSubject | src/Pdsr.Core/Domain/PdsrUserBase.cs:63 | `PdsrUserBase(subjectId)` has `Id == SubjectId == subjectId` |
| Domain.UserEquals | src/Pdsr.Core/Domain/PdsrUserBase.cs:40-50 | `Equals(ISubjectOwnable?)` is false for null |
| Domain.UserEqualsIffSameSubject | src/Pdsr.Core/Domain/PdsrUserBase.cs:48-49 | Under the `Equals(ISubjectOwnable?)` overload, two users are equal iff their subjects are; the keys take no part |
| Domain.IsOwner | src/Pdsr.Core/Extensions/ISubjectOwnerExtensions.cs:7 | `IsOwner(source, s)` holds iff the source's subject is `s` |
| Domain.IsOwnerReflexive | src/Pdsr.Core/Extensions/ISubjectOwnerExtensions.cs:7 | Every object owns its own subject; two objects with the same subject own the same subjects |
| Domain.UserEqualsIsOwnership | src/Pdsr.Core/Domain/PdsrUserBase.cs:49 | For a non-null object, the `Equals(ISubjectOwnable?)` overload holds iff the user owns that object's subject |
| Domain.SubjectIdUser.constructor | src/Pdsr.Core/Domain/PdsrUserBase.cs:80-84 | `Id`, `SubjectId` and the base record's subject all start as the given subject id |
| Domain.SubjectIdUser.SetId | src/Pdsr.Core/Domain/PdsrUserBase.cs:90 | Setting `Id` is visible through both `Id` and `SubjectId`, which share one field |
| Domain.SubjectIdUser.EqualsUser | src/Pdsr.Core/Domain/PdsrUserBase.cs:94-104 | True iff the other user is non-null and has the same (shared-field) subject |
| Domain.SubjectIdUser.EqualsOwnable | src/Pdsr.Core/Domain/PdsrUserBase.cs:40-50 | The inherited comparison: true iff the other object is non-null and its subject is the one the constructor stored in the base record |
| StringExtensions.SubstringFrom | src/Pdsr.Core.Extensions/StringExtensions.cs:24 | `Substring(start)` succeeds iff `0 <= start <= length` and then yields the suffix from `start` |
| StringExtensions.SubstringRange | src/Pdsr.Core.Extensions/StringExtensions.cs:26 | `Substring(start, length)` succeeds iff the range lies inside the text and then yields exactly that range |
| StringExtensions.Redact | src/Pdsr.Core.Extensions/StringExtensions.cs:16-35 | Unless at least two characters would be hidden (0 <= charsToKeep and charsToKeep + 1 < length), the text comes back unchanged; otherwise the result is the marker (`redactedText + " "`, or nothing) followed by exactly `charsToKeep` characters of the text: its last ones when redacting from the start, its first ones otherwise |
| StringExtensions.RedactWithDefaultText | src/Pdsr.Core.Extensions/StringExtensions.cs:45-48 | The four-argument overload forwards `***REDACTED***`, so a redacted result starts with `***REDACTED*** ` when the marker is wanted |
| StringExtensions.RedactKeepingEnd | src/Pdsr.Core.Extensions/StringExtensions.cs:57-60 | The three-argument overload keeps the end of the text; without the marker the result is exactly the last `charsToKeep` characters |
| StringExtensions.RedactKeeping | src/Pdsr.Core.Extensions/StringExtensions.cs:68-71 | The two-argument overload gives `***REDACTED*** ` followed by the last `charsToKeep` characters whenever it redacts |
| StringExtensions.RedactDefault | src/Pdsr.Core.Extensions/StringExtensions.cs:79-82 | `Redact(text)`: texts of at most six characters come back unchanged, longer ones as `***REDACTED*** ` and their last five characters |
| StringExtensions.NegativeKeepReturnsText | src/Pdsr.Core.Extensions/StringExtensions.cs:19-34 | A negative count makes `Substring` throw; the exception is swallowed and the text is returned |
| StringExtensions.RedactHidesAtLeastTwo | src/Pdsr.Core.Extensions/StringExtensions.cs:21-29 | Without the marker exactly `charsToKeep` characters survive and at least two are hidden |
| EnumerableExtensions.Skip | src/Pdsr.Data/Extensions/IEnumerableExtensions.Page.cs:17 | LINQ `Skip`: a non-positive count skips nothing, a count within range drops that prefix, a count past the end leaves nothing |
| EnumerableExtensions.Take | src/Pdsr.Data/Extensions/IEnumerableExtensions.Page.cs:17 | LINQ `Take`: nothing for a non-positive count, the prefix of that length, or everything when there are fewer elements |
| EnumerableExtensions.SkipThenTake | src/Pdsr.Data/Extensions/IEnumerableExtensions.Page.cs:17 | `Skip(c).Take(l)` is the slice between `c` and `c + l`, both clamped to the length |
| EnumerableExtensions.PageOffset | src/Pdsr.Data/Extensions/IEnumerableExtensions.Page.cs:15 | When it fits in an `int`, the offset is `(pageNumber - 1) * pageSize` and is non-negative |
| EnumerableExtensions.Page | src/Pdsr.Data/Extensions/IEnumerableExtensions.Page.cs:9-20 | Null source, page number below 1 and page size below 1 are rejected, in that order; otherwise at most `pageSize` elements, namely `source[offset .. offset + pageSize]` clamped to the length |
| EnumerableExtensions.PageDefault | src/Pdsr.Data/Extensions/IEnumerableExtensions.Page.cs:9-20 | `source.Page(pageNumber)` with the default `pageSize = 100`: the same errors for a null source and a page number below 1; otherwise at most 100 elements, namely `source[100 * (pageNumber - 1) .. 100 * pageNumber]` clamped to the length |
| EnumerableExtensions.PageEmptyIffPastEnd | src/Pdsr.Data/Extensions/IEnumerableExtensions.Page.cs:15-17 | A page is empty iff its offset reaches the end of the sequence |
| EnumerableExtensions.FirstPageIsPrefix | src/Pdsr.Data/Extensions/IEnumerableExtensions.Page.cs:15-17 | Page 1 is the prefix of length `min(pageSize, length)` |
| EnumerableExtensions.PagesArePrefix | src/Pdsr.Data/Extensions/IEnumerableExtensions.Page.cs:15-17 | Pages `1..k` put one after another are the prefix of length `min(k * pageSize, length)`: nothing skipped, nothing repeated |
| StringCasing.ToLower | src/Pdsr.Core.Extensions/StringCasingExtensions.cs:58 | Upper-case letters become lower-case; every other character is unchanged |
| StringCasing.ToSnakeCase | src/Pdsr.Core.Extensions/StringCasingExtensions.cs:16-82 | A null text comes back null and the empty string unchanged; otherwise the loop's builder equals the fold `Run` over the text, so the result is `SnakeCase(text)` |
| StringCasing.OutputAlphabet | src/Pdsr.Core.Extensions/StringCasingExtensions.cs:45-74 | The output contains only lower-case letters, digits, `_` and `-` |
| StringCasing.EssencePreserved | src/Pdsr.Core.Extensions/StringCasingExtensions.cs:26-79 | The letters, digits and dashes of the output are those of the input, in order, lower-cased: only underscores are added and only "other" characters dropped |
| StringCasing.InsertedBreaksAreInterior | src/Pdsr.Core.Extensions/StringCasingExtensions.cs:47-67 | For input without `_`, every output `_` has a lower-case letter or digit on both sides: never first, last, doubled or next to `-` |
| StringCasing.NoBreakAfterSeparator | src/Pdsr.Core.Extensions/StringCasingExtensions.cs:29-40 | An input `_` or `-` is copied as it is and clears the state, so the next character gets no `_` in front of it |
| StringCasing.NoLeadingBreak | src/Pdsr.Core.Extensions/StringCasingExtensions.cs:47-74 | Leading "other" characters vanish and the first letter or digit is emitted without a `_` |
| StringCasing.LowerThenUpperBreaks | src/Pdsr.Core.Extensions/StringCasingExtensions.cs:47-48 | A lower-case letter followed by an upper-case one gets `_` between them |
| StringCasing.DigitJoinsLetters | src/Pdsr.Core.Extensions/StringCasingExtensions.cs:49-67 | A digit next to a letter, on either side, gets no `_` |
| StringCasing.AcronymBreaksBeforeLastCapital | src/Pdsr.Core.Extensions/StringCasingExtensions.cs:49-53 | Inside a run of capitals, a `_` goes before a capital exactly when a lower-case letter follows it |
| StringCasing.OtherRunLeavesSpace | src/Pdsr.Core.Extensions/StringCasingExtensions.cs:69-74 | A run of "other" characters after a word emits nothing and leaves the state at `SpaceSeparator` |
| StringCasing.OtherRunBecomesOneBreak | src/Pdsr.Core.Extensions/StringCasingExtensions.cs:63-74 | A run of "other" characters between two words becomes exactly one `_` |
| StringCasing.TrailingOthersVanish | src/Pdsr.Core.Extensions/StringCasingExtensions.cs:69-74 | Trailing "other" characters add nothing to the result |
| StringCasing.NoneThroughOthers | src/Pdsr.Core.Extensions/StringCasingExtensions.cs:69-72 | With no previous category, "other" characters leave the builder and the state as they are |
| StringCasing.OnePartCase | Tests/Pdsr.Core.ExtensionTests/StringExtensionTests.cs:18-25 | "Test" becomes "test" |
| StringCasing.MultiPartCase | Tests/Pdsr.Core.ExtensionTests/StringExtensionTests.cs:29-36 | "TestSomeValue" becomes "test_some_value" |
| StringCasing.NumberAtEndCase | Tests/Pdsr.Core.ExtensionTests/StringExtensionTests.cs:40-47 | "Test14" becomes "test14" |
| StringCasing.NumberInMiddleCase | Tests/Pdsr.Core.ExtensionTests/StringExtensionTests.cs:51-58 | "Test14Something" becomes "test14something" |
| StringCasing.AcronymCase | src/Pdsr.Core.Extensions/StringCasingExtensions.cs:49-53 | "ABCDef" becomes "abc_def" |
| WorkQueues.Initial | src/Pdsr.Hosting/BackgroundTaskQueue.cs:13-28 | A new queue with `SemaphoreSlim(0)` is empty and satisfies count == number of items |
| WorkQueues.Enqueued | src/Pdsr.Hosting/BackgroundTaskQueue.cs:37-38 | Enqueue-and-release appends exactly the item at the tail, keeps the older items, and preserves the pairing invariant (both ways) |
| WorkQueues.Dequeued | src/Pdsr.Hosting/BackgroundTaskQueue.cs:45-54 | A cancelled token, checked first, fails without touching the queue; it would wait iff the count is 0, and then nothing changes; otherwise one count is taken, and a taken item is the head with the rest remaining |
| WorkQueues.SignalAlwaysFindsItem | src/Pdsr.Hosting/BackgroundTaskQueue.cs:45-52 | Under count == number of items, the "signalled but nothing dequeued" branch is unreachable; the invariant survives; an uncancelled dequeue gets an item iff the queue is non-empty |
| WorkQueues.EnqueuedAllAppends | src/Pdsr.Hosting/BackgroundTaskQueue.cs:37-38 | Enqueueing a sequence appends it and raises the count by its length |
| WorkQueues.DrainConsistent | src/Pdsr.Hosting/BackgroundTaskQueue.cs:45-54 | As many dequeues as there are items return the items in order and leave an empty queue with count 0 |
| WorkQueues.FifoRoundTrip | src/Pdsr.Hosting/BackgroundTaskQueue.cs:37-54 | After enqueueing `xs` on a consistent queue, draining it returns the old items followed by `xs`, in order, and leaves it as new |
| WorkQueues.WorkQueue.constructor | src/Pdsr.Hosting/BackgroundTaskQueue.cs:22-25 | A new queue object is empty and consistent |
| WorkQueues.WorkQueue.Enqueue | src/Pdsr.Hosting/BackgroundTaskQueue.cs:37-38 | The object's new state is `Enqueued` of its old state |
| WorkQueues.WorkQueue.Dequeue | src/Pdsr.Hosting/BackgroundTaskQueue.cs:45-47 | The outcome and the object's new state are those of `Dequeued` on its old state |
| TaskQueues.BackgroundTaskQueue.constructor | src/Pdsr.Hosting/BackgroundTaskQueue.cs:11-28 | Four fresh, distinct, empty and consistent queues |
| TaskQueues.BackgroundTaskQueue.QueueBackgroundWorkItem | src/Pdsr.Hosting/BackgroundTaskQueue.cs:30-39 | Null is rejected with `ArgumentNullException("workItem")` and changes nothing; otherwise the plain queue gets the item at its tail and one more count; the other three queues are unchanged |
| TaskQueues.BackgroundTaskQueue.DequeueAsync | src/Pdsr.Hosting/BackgroundTaskQueue.cs:42-55 | The plain queue steps as `Dequeued`; the null check never fires; the other queues are unchanged; the registry stays consistent |
| TaskQueues.BackgroundTaskQueue.QueueBackgroundProviderWorkItem | src/Pdsr.Hosting/BackgroundTaskQueue.cs:58-66 | As for the plain queue, on the provider queue only |
| TaskQueues.BackgroundTaskQueue.DequeueProviderTaskAsync | src/Pdsr.Hosting/BackgroundTaskQueue.cs:69-81 | As for the plain queue, on the provider queue only |
| TaskQueues.BackgroundTaskQueue.QueueBackgroundScopedWorkItem | src/Pdsr.Hosting/BackgroundTaskQueue.cs:83-91 | As for the plain queue, on the scope queue only |
| TaskQueues.BackgroundTaskQueue.DequeueScopedWorkItemAsync | src/Pdsr.Hosting/BackgroundTaskQueue.cs:93-104 | As for the plain queue, on the scope queue only |
| TaskQueues.BackgroundTaskQueue.QueueUserWorkItem | src/Pdsr.Hosting/BackgroundTaskQueue.cs:107-118 | Rejected (naming `workItem`, queue unchanged) iff the subject id is null or empty or the delegate is null; otherwise the pair (subject id, delegate) is appended to the user queue; the other queues are unchanged |
| TaskQueues.BackgroundTaskQueue.DequeueUserTaskAsync | src/Pdsr.Hosting/BackgroundTaskQueue.cs:120-126 | The user queue steps as `Dequeued`; the default pair that an empty `TryDequeue` would give is never returned; the other queues are unchanged |
| Hosting.CancellationIsSticky | src/Pdsr.Hosting/TaskQueueHostedService.cs:38-40 | A cancellation seen once is seen at every later observation |
| Hosting.Processed | src/Pdsr.Hosting/TaskQueueHostedService.cs:38-51 | A loop completes at most the queued items, all of them without cancellation, and every completed item's wait was not cancelled |
| Hosting.EndOf | src/Pdsr.Hosting/TaskQueueHostedService.cs:38-51 | A loop ends blocked only after taking every item with no cancellation at the next loop head; any other ending needs a cancelled token |
| Hosting.NoWorkAfterCancellation | src/Pdsr.Hosting/TaskQueueHostedService.cs:38 | Once the token is seen at the head of iteration `i`, no item beyond the first `i` is taken; without cancellation every item is taken and the loop ends waiting |
| Hosting.StopAtHead | src/Pdsr.Hosting/TaskQueueHostedService.cs:38 | A loop that sees the token at its head after `i` items has completed exactly `Processed` items and ends `StoppedAtHead` |
| Hosting.StopInWait | src/Pdsr.Hosting/TaskQueueHostedService.cs:40 | A loop whose wait is cancelled after `i` items has completed exactly `Processed` items and ends `CancelledInWait` |
| Hosting.StopBlocked | src/Pdsr.Hosting/TaskQueueHostedService.cs:40 | A loop that empties the queue with no cancellation in the next wait has completed every item and ends `Blocked` |
| Hosting.Runtime.CreateScope | src/Pdsr.Hosting/ProviderTaskQueueService.cs:35 | A fresh scope numbered by creation order; one more open scope; `ScopeCreated` logged |
| Hosting.Runtime.DisposeScope | src/Pdsr.Hosting/ProviderTaskQueueService.cs:35-40 | Leaving the `using` block closes one open scope and logs `ScopeDisposed` |
| Hosting.Runtime.SetSubjectId | src/Pdsr.Hosting/UserTaskQueuedService.cs:43 | The scope's session now holds the subject id; `SubjectSet` logged |
| Hosting.Runtime.GetUserAsync | src/Pdsr.Hosting/UserTaskQueuedService.cs:44 | A user is returned iff the scope's session holds a subject id with a user, and it is that user; `UserRequested` logged |
| Hosting.Runtime.Invoke | src/Pdsr.Hosting/TaskQueueHostedService.cs:44 | The call is logged as `Invoked`; it throws exactly when `fails` says so |
| Hosting.Runtime.LogError | src/Pdsr.Hosting/TaskQueueHostedService.cs:46-50 | Appends one `ErrorLogged` entry |
| ConsumerTraces.PlainTraceStep | src/Pdsr.Hosting/TaskQueueHostedService.cs:38-51 | Taking one more item appends that item's steps to the log of the run so far |
| ConsumerTraces.PlainStepsShape | src/Pdsr.Hosting/TaskQueueHostedService.cs:42-50 | One plain item is invoked once with no context and the token, and logs one error iff it throws |
| ConsumerTraces.PlainTraceCalls | src/Pdsr.Hosting/TaskQueueHostedService.cs:38-51 | The invocations of a run are exactly the taken items, in queue order, each with the stopping token |
| ConsumerTraces.PlainTraceErrors | src/Pdsr.Hosting/TaskQueueHostedService.cs:42-50 | The errors logged are exactly one per invocation that throws, in order; nothing else is logged |
| ConsumerTraces.ScopedTraceStep | src/Pdsr.Hosting/ProviderTaskQueueService.cs:28-46 | Taking one more item appends that item's steps, in the next scope, to the log of the run so far |
| ConsumerTraces.ScopedTraceCalls | src/Pdsr.Hosting/ProviderTaskQueueService.cs:31-38 | Item `i` is invoked exactly once, in queue order, with scope `first + i` (its provider or the scope itself) and the token |
| ConsumerTraces.ScopedStepsCallsAndErrors | src/Pdsr.Hosting/ScopedTaskQueueService.cs:29-39 | One scoped item is invoked once inside its scope and logs one error iff it throws |
| ConsumerTraces.ScopedStepsScopes | src/Pdsr.Hosting/ScopedTaskQueueService.cs:31-34 | One scoped item creates and disposes exactly its own scope, whether or not it throws |
| ConsumerTraces.ScopedTraceScopes | src/Pdsr.Hosting/ProviderTaskQueueService.cs:33-41 | The scopes created and the scopes disposed in a run are both exactly `first, first + 1, …`, one per item |
| ConsumerTraces.ScopedTraceErrors | src/Pdsr.Hosting/ScopedTaskQueueService.cs:36-39 | The errors logged are exactly one per invocation that throws, in order |
| ConsumerTraces.UserTraceStep | src/Pdsr.Hosting/UserTaskQueuedService.cs:33-59 | Taking one more pair appends its steps, in the next scope, to the log of the run so far |
| ConsumerTraces.UserStepsCalls | src/Pdsr.Hosting/UserTaskQueuedService.cs:46-51 | One pair is invoked once, with its scope and the user its subject id resolves to, or never when there is no such user |
| ConsumerTraces.UserTraceCalls | src/Pdsr.Hosting/UserTaskQueuedService.cs:33-59 | The invocations of a run are the expected calls of the taken pairs, in queue order |
| ConsumerTraces.ExpectedCallsIn | src/Pdsr.Hosting/UserTaskQueuedService.cs:39-51 | Among the expected calls, those in scope `t` are the calls of the pair that ran in `t`, and none for a scope outside the run |
| ConsumerTraces.UserTraceCallsPerItem | src/Pdsr.Hosting/UserTaskQueuedService.cs:46-51 | The invocations in pair `i`'s scope are exactly one call with its user and the token when its subject id resolves to a user, and none otherwise |
| ConsumerTraces.UserStepsSubject | src/Pdsr.Hosting/UserTaskQueuedService.cs:43 | One pair sets exactly its own subject id, on its own scope's session |
| ConsumerTraces.UserTraceSubjects | src/Pdsr.Hosting/UserTaskQueuedService.cs:43 | Pair `i` sets its subject id on scope `first + i`, in queue order, and nothing else is set |
| ConsumerTraces.UserStepsScopes | src/Pdsr.Hosting/UserTaskQueuedService.cs:39-52 | One pair creates and disposes exactly its own scope, with or without a user |
| ConsumerTraces.UserTraceScopes | src/Pdsr.Hosting/UserTaskQueuedService.cs:39-52 | The scopes created and disposed in a run are both exactly `first, first + 1, …`, one per pair |
| ConsumerTraces.UserStepsErrors | src/Pdsr.Hosting/UserTaskQueuedService.cs:54-58 | One pair logs "user not found" when its subject id has no user, its item's exception when the item throws, and nothing otherwise |
| ConsumerTraces.UserTraceErrors | src/Pdsr.Hosting/UserTaskQueuedService.cs:46-58 | The errors of a run are those of its pairs, in queue order |
| ConsumerTraces.UserTraceLookupFollowsSubject | src/Pdsr.Hosting/UserTaskQueuedService.cs:43-44 | Every user lookup comes right after the subject id is set on the same scope's session |
| ConsumerTraces.SessionsAfterStep | src/Pdsr.Hosting/UserTaskQueuedService.cs:39-43 | Running one more pair sets the next scope's session to that pair's subject id and leaves the others |
| ConsumerTraces.SessionsAfterHoldSubjects | src/Pdsr.Hosting/UserTaskQueuedService.cs:39-43 | After a run, the session of scope `first + i` holds pair `i`'s subject id, and the session of every other scope is as it was |
| TaskQueueHostedService.BackgroundProcessing | src/Pdsr.Hosting/TaskQueueHostedService.cs:34-54 | Takes exactly `Processed` items from the head of the plain queue and ends as `EndOf` says; the log grows by exactly `PlainTrace` of those items; the registry stays consistent |
| ProviderTaskQueueService.RunProviderWorkItem | src/Pdsr.Hosting/ProviderTaskQueueService.cs:33-45 | One `try` block: a new scope, the item invoked with its provider, the scope disposed on both paths, a logged exception; the open-scope count is back where it was |
| ProviderTaskQueueService.ExecuteAsync | src/Pdsr.Hosting/ProviderTaskQueueService.cs:24-49 | Takes exactly `Processed` provider items and ends as `EndOf` says; one new scope per item, none left open; the log grows by exactly `ScopedTrace` of those items with provider contexts |
| ScopedTaskQueueService.RunScopedWorkItem | src/Pdsr.Hosting/ScopedTaskQueueService.cs:29-39 | One `try` block: a new scope, the item invoked with it, the scope disposed on both paths, a logged exception; the open-scope count is back where it was |
| ScopedTaskQueueService.ExecuteAsync | src/Pdsr.Hosting/ScopedTaskQueueService.cs:21-43 | Takes exactly `Processed` scope items and ends as `EndOf` says; one new scope per item, none left open; the log grows by exactly `ScopedTrace` of those items with scope contexts |
| UserTaskQueuedService.RunUserWorkItem | src/Pdsr.Hosting/UserTaskQueuedService.cs:37-58 | One `try` block: a new scope, the subject id set, the user requested; with a user the item is invoked, without one it is not; the scope is disposed on every path before the exception is logged; the new scope's session holds the pair's subject id and no other session changes |
| UserTaskQueuedService.ExecuteAsync | src/Pdsr.Hosting/UserTaskQueuedService.cs:29-62 | Takes exactly `Processed` pairs and ends as `EndOf` says; one new scope per pair, none left open; the log grows by exactly `UserTrace` of those pairs; the sessions are `SessionsAfter` the taken pairs |
| GenericUserTaskQueuedService.ExecuteAsync | src/Pdsr.Hosting/GenericUserTaskQueuedService.cs:38-71 | The same contract as `UserTaskQueuedService.ExecuteAsync`: the pairs taken, how the loop ends, balanced scopes, the sessions and the exact `UserTrace`; the services resolved from the scope are the model's session and user directory |

## Left out

- Concurrency: `SemaphoreSlim` waiting, `ConcurrentQueue` thread safety and racing producers. Queues and consumers are sequential, and a wait that would block ends the loop as `Blocked`.
- `Task`/`await`, the `BackgroundService` lifecycle and `StopAsync`: each consumer is its loop.
- The information and trace log messages, and the text of error messages. The logger is the `ErrorLogged` entries of the event log.
- The DI container. `CreateScope` and `GetRequiredService` are the scope counter and the `Runtime`'s session and user directory; a resolution that throws is not modelled.
- `TaskQueueHostedService.ExecuteAsync` (lines 25-32) is only an information log and then `BackgroundProcessing`, which is modelled.
- Hosting.Runtime.GetUserAsync: the user service implementation is not part of this model. It is a lookup of the session's subject id in a fixed directory, and it never throws or observes the token.
- GenericUserTaskQueuedService.ExecuteAsync: the services are resolved through type parameters rather than interfaces, but the loop body is the same, so the method delegates to `UserTaskQueuedService.ExecuteAsync` instead of repeating it.
- The user type is fixed to `PdsrUserBase<string>`; other key types of `BackgroundTaskQueue<TKey, TUser>` are not modelled.
- Unicode and culture in `ToSnakeCase`: characters are classified by ASCII, and there are no title-case letters.
- `ToKebabCase` is not in the source and is not modelled.
- EnumerableExtensions.Page: the slice is stated only for page offsets that fit in 32 bits. For larger ones, the wrapped offset is computed but not described beyond the page size bound.
- StringExtensions.Redact: texts are bounded by the .NET maximum string length. A null text, which the source returns as it is (line 21), is not modelled, because the text is a plain string in every overload.
- Generated record equality: `BaseEntity` and `PdsrUserBase<TKey>` are C# records. A derived record's compiler-generated `Equals` also compares its own fields and its runtime type, and a record's generated `==` and `Equals(PdsrUserBase<TKey>?)` compare every field, so two records with the same `Id` (or `SubjectId`) can be unequal. This goes against the equality the doc comments at `BaseEntity.cs:7` and `PdsrUserBase.cs:35-36` describe. The `Domain` lemmas are about the declared `Equals(BaseEntity?)`, `EqualsCore`, `GetHashCode` and `Equals(ISubjectOwnable?)` bodies only.
- `DateTimeOffset` timestamps of users, `IBaseEntity` and the EF Core mapping.
- Dependency-injection registration (`ServiceCollectionExtensions`), the EF Core repository wrappers and configuration helpers.

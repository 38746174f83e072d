/**
 * The environment the queue consumers run in: the stopping token, service scopes, the
 * per-scope session that holds a subject id, the user service, the queued delegates
 * themselves and the logger. Each interaction appends an `Event` to a log, so a consumer
 * loop is specified by the exact sequence of events it produces.
 */
module Hosting {
  import opened Wrappers
  import opened TaskQueues
  import Domain

  /** The user a per-user item receives: a `PdsrUserBase<string>`. */
  type User = Domain.UserBase<string>

  /**
   * A stopping token, read at successive observations numbered from 0. Once cancellation
   * is requested it stays requested: from observation `cancelFrom` on, or never.
   */
  datatype CancellationToken = CancellationToken(cancelFrom: Option<nat>)

  predicate IsCancellationRequested(token: CancellationToken, observation: nat)
  {
    token.cancelFrom.Some? && token.cancelFrom.value <= observation
  }

  /** A consumer loop reads the token at the head of iteration `i` ... */
  function HeadCheck(i: nat): nat { 2 * i }

  /** ... and then inside the wait of that iteration's dequeue. */
  function WaitCheck(i: nat): nat { 2 * i + 1 }

  /** Once requested, cancellation is seen at every later observation. */
  lemma CancellationIsSticky(token: CancellationToken, m: nat, n: nat)
    requires m <= n && IsCancellationRequested(token, m)
    ensures IsCancellationRequested(token, n)
  {
  }

  /** Service scopes are numbered in creation order. */
  type ScopeId = nat

  /**
   * What a delegate is handed besides the token: nothing (plain), a fresh scope's service
   * provider, the fresh scope itself, or the fresh scope's provider and the loaded user.
   */
  datatype Context =
    | NoContext
    | ScopeProvider(scope: ScopeId)
    | ServiceScope(scope: ScopeId)
    | UserContext(scope: ScopeId, user: User)

  /** One invocation of a queued delegate. */
  datatype Call = Call(item: WorkItem, context: Context, token: CancellationToken)

  /** The exception a consumer catches and logs. */
  datatype Failure = ItemThrew(item: WorkItem) | UserNotFound

  datatype Event =
    | ScopeCreated(scope: ScopeId)
    | ScopeDisposed(scope: ScopeId)
    | SubjectSet(scope: ScopeId, subjectId: string)
    | UserRequested(scope: ScopeId)
    | Invoked(call: Call)
    | ErrorLogged(failure: Failure)

  /** How a consumer loop ends: token seen at the loop head, cancelled wait, or a wait that blocks on an empty queue. */
  datatype LoopEnd = StoppedAtHead | CancelledInWait | Blocked

  /**
   * How many of `n` queued items a consumer loop completes under `token`: all of them,
   * unless cancellation is requested at observation `c`, which stops it after `c / 2`.
   */
  function Processed(token: CancellationToken, n: nat): (k: nat)
    ensures k <= n
    ensures token.cancelFrom.None? ==> k == n
    ensures forall i: nat :: i < k ==> !IsCancellationRequested(token, WaitCheck(i))
  {
    match token.cancelFrom
    case None => n
    case Some(c) => Min(n, c / 2)
  }

  function Min(a: nat, b: nat): nat { if a < b then a else b }

  function EndOf(token: CancellationToken, n: nat): (e: LoopEnd)
    ensures e == Blocked ==> Processed(token, n) == n && !IsCancellationRequested(token, HeadCheck(n))
    ensures e != Blocked ==> token.cancelFrom.Some?
  {
    var k := Processed(token, n);
    if IsCancellationRequested(token, HeadCheck(k)) then StoppedAtHead
    else if IsCancellationRequested(token, WaitCheck(k)) then CancelledInWait
    else Blocked
  }

  /**
   * Stopping: once the token is requested at the head of iteration `i`, no item beyond
   * the first `i` is taken; and without cancellation every queued item is taken and the
   * loop ends waiting on the empty queue.
   */
  lemma NoWorkAfterCancellation(token: CancellationToken, n: nat, i: nat)
    ensures IsCancellationRequested(token, HeadCheck(i)) ==> Processed(token, n) <= i
    ensures token.cancelFrom.None? ==> Processed(token, n) == n && EndOf(token, n) == Blocked
  {
  }

  /** The three ways out of a consumer loop that has completed `i` of `n` items, each proved to match `Processed` and `EndOf`. */
  lemma StopAtHead(token: CancellationToken, n: nat, i: nat)
    requires i <= n && (i > 0 ==> !IsCancellationRequested(token, WaitCheck(i - 1)))
    requires IsCancellationRequested(token, HeadCheck(i))
    ensures Processed(token, n) == i && EndOf(token, n) == StoppedAtHead
  {
  }

  lemma StopInWait(token: CancellationToken, n: nat, i: nat)
    requires i <= n && !IsCancellationRequested(token, HeadCheck(i))
    requires IsCancellationRequested(token, WaitCheck(i))
    ensures Processed(token, n) == i && EndOf(token, n) == CancelledInWait
  {
  }

  lemma StopBlocked(token: CancellationToken, n: nat)
    requires !IsCancellationRequested(token, WaitCheck(n))
    ensures Processed(token, n) == n && EndOf(token, n) == Blocked
  {
  }

  /**
   * The services a consumer touches: scope creation and disposal, the scoped session
   * and user service, the delegates (`fails` says which invocations throw) and the logger.
   */
  class Runtime {
    var events: seq<Event>
    var openScopes: nat
    var createdScopes: nat
    var sessions: map<ScopeId, string>
    const users: map<string, User>
    const fails: Call -> bool

    constructor (users: map<string, User>, fails: Call -> bool)
      ensures events == [] && openScopes == 0 && createdScopes == 0 && sessions == map[]
      ensures this.users == users && this.fails == fails
    {
      events := [];
      openScopes := 0;
      createdScopes := 0;
      sessions := map[];
      this.users := users;
      this.fails := fails;
    }

    /** `ServiceProvider.CreateScope()`: a fresh scope, numbered by creation order. */
    method CreateScope() returns (scope: ScopeId)
      modifies this`events, this`openScopes, this`createdScopes
      ensures scope == old(createdScopes)
      ensures createdScopes == old(createdScopes) + 1 && openScopes == old(openScopes) + 1
      ensures events == old(events) + [ScopeCreated(scope)]
    {
      scope := createdScopes;
      createdScopes := createdScopes + 1;
      openScopes := openScopes + 1;
      events := events + [ScopeCreated(scope)];
    }

    /** Leaving the `using` block disposes the scope. */
    method DisposeScope(scope: ScopeId)
      requires openScopes > 0
      modifies this`events, this`openScopes
      ensures openScopes == old(openScopes) - 1
      ensures events == old(events) + [ScopeDisposed(scope)]
    {
      openScopes := openScopes - 1;
      events := events + [ScopeDisposed(scope)];
    }

    /** The scope's session records the subject id. */
    method SetSubjectId(scope: ScopeId, subjectId: string)
      modifies this`events, this`sessions
      ensures sessions == old(sessions)[scope := subjectId]
      ensures events == old(events) + [SubjectSet(scope, subjectId)]
    {
      sessions := sessions[scope := subjectId];
      events := events + [SubjectSet(scope, subjectId)];
    }

    /** The scope's user service loads the user of the session's subject id, or nothing. */
    method GetUserAsync(scope: ScopeId) returns (user: Option<User>)
      modifies this`events
      ensures user.Some? <==> scope in sessions && sessions[scope] in users
      ensures user.Some? ==> user.value == users[sessions[scope]]
      ensures events == old(events) + [UserRequested(scope)]
    {
      events := events + [UserRequested(scope)];
      if scope in sessions && sessions[scope] in users {
        user := Some(users[sessions[scope]]);
      } else {
        user := None;
      }
    }

    /** Awaits a delegate; `threw` reports whether it threw. */
    method Invoke(call: Call) returns (threw: bool)
      modifies this`events
      ensures threw == fails(call)
      ensures events == old(events) + [Invoked(call)]
    {
      events := events + [Invoked(call)];
      threw := fails(call);
    }

    method LogError(failure: Failure)
      modifies this`events
      ensures events == old(events) + [ErrorLogged(failure)]
    {
      events := events + [ErrorLogged(failure)];
    }
  }
}

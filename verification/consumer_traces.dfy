/**
 * The event sequences the queue consumers produce, item by item, and what they imply:
 * which delegates are invoked, with which context, which scopes are opened and closed,
 * and what is logged.
 */
module ConsumerTraces {
  import opened Wrappers
  import opened TaskQueues
  import opened Hosting

  /** What `pick` extracts from one event. */
  function Picked<V>(e: Event, pick: Event -> Option<V>): seq<V>
  {
    match pick(e)
    case Some(v) => [v]
    case None => []
  }

  /** The values `pick` extracts from a log, in log order. */
  function Select<V>(events: seq<Event>, pick: Event -> Option<V>): seq<V>
  {
    if events == [] then []
    else Select(events[..|events| - 1], pick) + Picked(events[|events| - 1], pick)
  }

  lemma {:induction false} SelectAppend<V>(a: seq<Event>, b: seq<Event>, pick: Event -> Option<V>)
    ensures Select(a + b, pick) == Select(a, pick) + Select(b, pick)
    decreases |b|
  {
    if b == [] {
      assert a + b == a;
    } else {
      var b' := b[..|b| - 1];
      assert (a + b)[..|a + b| - 1] == a + b';
      assert (a + b)[|a + b| - 1] == b[|b| - 1];
      SelectAppend(a, b', pick);
    }
  }

  lemma SelectCons<V>(e: Event, rest: seq<Event>, pick: Event -> Option<V>)
    ensures Select([e] + rest, pick) == Picked(e, pick) + Select(rest, pick)
  {
    SelectAppend([e], rest, pick);
    assert [e][..0] == [];
  }

  function CallOf(e: Event): Option<Call>
  {
    if e.Invoked? then Some(e.call) else None
  }

  function ErrorOf(e: Event): Option<Failure>
  {
    if e.ErrorLogged? then Some(e.failure) else None
  }

  function CreatedOf(e: Event): Option<ScopeId>
  {
    if e.ScopeCreated? then Some(e.scope) else None
  }

  function DisposedOf(e: Event): Option<ScopeId>
  {
    if e.ScopeDisposed? then Some(e.scope) else None
  }

  function SubjectOf(e: Event): Option<(ScopeId, string)>
  {
    if e.SubjectSet? then Some((e.scope, e.subjectId)) else None
  }

  /** The scope a context carries, if any. */
  function ScopeOf(c: Context): Option<ScopeId>
  {
    match c
    case NoContext => None
    case ScopeProvider(s) => Some(s)
    case ServiceScope(s) => Some(s)
    case UserContext(s, _) => Some(s)
  }

  /** The invocations among `calls` that run inside scope `s`. */
  function CallsIn(calls: seq<Call>, s: ScopeId): seq<Call>
  {
    if calls == [] then []
    else
      var last := calls[|calls| - 1];
      CallsIn(calls[..|calls| - 1], s) + (if ScopeOf(last.context) == Some(s) then [last] else [])
  }

  lemma {:induction false} CallsInAppend(a: seq<Call>, b: seq<Call>, s: ScopeId)
    ensures CallsIn(a + b, s) == CallsIn(a, s) + CallsIn(b, s)
    decreases |b|
  {
    if b == [] {
      assert a + b == a;
    } else {
      var b' := b[..|b| - 1];
      assert (a + b)[..|a + b| - 1] == a + b';
      assert (a + b)[|a + b| - 1] == b[|b| - 1];
      CallsInAppend(a, b', s);
    }
  }

  /** Reference: one `ItemThrew` per invocation that throws, in invocation order. */
  function ThrownBy(calls: seq<Call>, fails: Call -> bool): seq<Failure>
  {
    if calls == [] then []
    else
      var last := calls[|calls| - 1];
      ThrownBy(calls[..|calls| - 1], fails) + (if fails(last) then [ItemThrew(last.item)] else [])
  }

  lemma ThrownByAppend(calls: seq<Call>, c: Call, fails: Call -> bool)
    ensures ThrownBy(calls + [c], fails) == ThrownBy(calls, fails) + (if fails(c) then [ItemThrew(c.item)] else [])
  {
    assert (calls + [c])[..|calls + [c]| - 1] == calls;
  }

  /** What an optional trailing error entry contributes to a projection. */
  lemma SelectOptional<V>(present: bool, e: Event, pick: Event -> Option<V>)
    ensures Select(if present then [e] else [], pick) == if present then Picked(e, pick) else []
  {
    if present {
      SelectCons(e, [], pick);
    }
  }

  /* ---------------- plain work items (TaskQueueHostedService) ---------------- */

  /** One plain item: invoke it with the token; log if it throws. */
  function PlainSteps(x: WorkItem, token: CancellationToken, fails: Call -> bool): seq<Event>
  {
    var call := Call(x, NoContext, token);
    [Invoked(call)] + (if fails(call) then [ErrorLogged(ItemThrew(x))] else [])
  }

  function PlainTrace(xs: seq<WorkItem>, token: CancellationToken, fails: Call -> bool): seq<Event>
  {
    if xs == [] then []
    else PlainTrace(xs[..|xs| - 1], token, fails) + PlainSteps(xs[|xs| - 1], token, fails)
  }

  /** Taking one more queued item appends that item's steps to a log that ends in the run so far. */
  lemma PlainTraceStep(log: seq<Event>, xs: seq<WorkItem>, i: nat, token: CancellationToken, fails: Call -> bool)
    requires i < |xs|
    ensures log + PlainTrace(xs[..i + 1], token, fails) == (log + PlainTrace(xs[..i], token, fails)) + PlainSteps(xs[i], token, fails)
  {
    assert xs[..i + 1][..i] == xs[..i];
  }

  lemma PlainStepsSelect<V>(x: WorkItem, token: CancellationToken, fails: Call -> bool, pick: Event -> Option<V>)
    ensures var call := Call(x, NoContext, token);
      Select(PlainSteps(x, token, fails), pick)
      == Picked(Invoked(call), pick) + (if fails(call) then Picked(ErrorLogged(ItemThrew(x)), pick) else [])
  {
    var call := Call(x, NoContext, token);
    SelectCons(Invoked(call), if fails(call) then [ErrorLogged(ItemThrew(x))] else [], pick);
    SelectOptional(fails(call), ErrorLogged(ItemThrew(x)), pick);
  }

  lemma PlainStepsShape(x: WorkItem, token: CancellationToken, fails: Call -> bool)
    ensures Select(PlainSteps(x, token, fails), CallOf) == [Call(x, NoContext, token)]
    ensures Select(PlainSteps(x, token, fails), ErrorOf)
         == if fails(Call(x, NoContext, token)) then [ItemThrew(x)] else []
  {
    PlainStepsSelect(x, token, fails, CallOf);
    PlainStepsSelect(x, token, fails, ErrorOf);
  }

  /** Every taken plain item is invoked exactly once, in queue order, with the stopping token. */
  lemma {:induction false} PlainTraceCalls(xs: seq<WorkItem>, token: CancellationToken, fails: Call -> bool)
    ensures |Select(PlainTrace(xs, token, fails), CallOf)| == |xs|
    ensures forall i :: 0 <= i < |xs| ==> Select(PlainTrace(xs, token, fails), CallOf)[i] == Call(xs[i], NoContext, token)
  {
    if xs != [] {
      var xs' := xs[..|xs| - 1];
      var x := xs[|xs| - 1];
      assert Select(PlainTrace(xs, token, fails), CallOf)
          == Select(PlainTrace(xs', token, fails), CallOf) + [Call(x, NoContext, token)] by {
        assert PlainTrace(xs, token, fails) == PlainTrace(xs', token, fails) + PlainSteps(x, token, fails);
        SelectAppend(PlainTrace(xs', token, fails), PlainSteps(x, token, fails), CallOf);
        PlainStepsShape(x, token, fails);
      }
      PlainTraceCalls(xs', token, fails);
    }
  }

  /** Exactly one error is logged per invocation that throws, and nothing else is logged. */
  lemma {:induction false} PlainTraceErrors(xs: seq<WorkItem>, token: CancellationToken, fails: Call -> bool)
    ensures Select(PlainTrace(xs, token, fails), ErrorOf) == ThrownBy(Select(PlainTrace(xs, token, fails), CallOf), fails)
  {
    if xs != [] {
      var xs' := xs[..|xs| - 1];
      var x := xs[|xs| - 1];
      assert PlainTrace(xs, token, fails) == PlainTrace(xs', token, fails) + PlainSteps(x, token, fails);
      PlainTraceErrors(xs', token, fails);
      SelectAppend(PlainTrace(xs', token, fails), PlainSteps(x, token, fails), CallOf);
      SelectAppend(PlainTrace(xs', token, fails), PlainSteps(x, token, fails), ErrorOf);
      PlainStepsShape(x, token, fails);
      ThrownByAppend(Select(PlainTrace(xs', token, fails), CallOf), Call(x, NoContext, token), fails);
    }
  }

  /* ------- scoped work items (ProviderTaskQueueService, ScopedTaskQueueService) ------- */

  /** Which of the fresh scope's handles the delegate receives. */
  datatype ScopeShape = PassProvider | PassScope

  function ScopeContext(shape: ScopeShape, s: ScopeId): Context
  {
    match shape
    case PassProvider => ScopeProvider(s)
    case PassScope => ServiceScope(s)
  }

  /** One scoped item: open scope `s`, invoke the item in it, dispose the scope, then log if it threw. */
  function ScopedSteps(x: WorkItem, s: ScopeId, shape: ScopeShape, token: CancellationToken, fails: Call -> bool): seq<Event>
  {
    var call := Call(x, ScopeContext(shape, s), token);
    [ScopeCreated(s), Invoked(call), ScopeDisposed(s)] + (if fails(call) then [ErrorLogged(ItemThrew(x))] else [])
  }

  /** The items `xs`, the first of which gets scope `first`. */
  function ScopedTrace(xs: seq<WorkItem>, first: ScopeId, shape: ScopeShape, token: CancellationToken, fails: Call -> bool): seq<Event>
  {
    if xs == [] then []
    else ScopedTrace(xs[..|xs| - 1], first, shape, token, fails) + ScopedSteps(xs[|xs| - 1], first + |xs| - 1, shape, token, fails)
  }

  /** Taking one more queued item appends that item's steps, in the next scope, to a log that ends in the run so far. */
  lemma ScopedTraceStep(log: seq<Event>, xs: seq<WorkItem>, i: nat, first: ScopeId, shape: ScopeShape, token: CancellationToken, fails: Call -> bool)
    requires i < |xs|
    ensures log + ScopedTrace(xs[..i + 1], first, shape, token, fails)
         == (log + ScopedTrace(xs[..i], first, shape, token, fails)) + ScopedSteps(xs[i], first + i, shape, token, fails)
  {
    assert xs[..i + 1][..i] == xs[..i];
  }

  lemma ScopedStepsSelect<V>(x: WorkItem, s: ScopeId, shape: ScopeShape, token: CancellationToken, fails: Call -> bool, pick: Event -> Option<V>)
    ensures var call := Call(x, ScopeContext(shape, s), token);
      Select(ScopedSteps(x, s, shape, token, fails), pick)
      == Picked(ScopeCreated(s), pick) + Picked(Invoked(call), pick) + Picked(ScopeDisposed(s), pick)
         + (if fails(call) then Picked(ErrorLogged(ItemThrew(x)), pick) else [])
  {
    var call := Call(x, ScopeContext(shape, s), token);
    var tail: seq<Event> := if fails(call) then [ErrorLogged(ItemThrew(x))] else [];
    var rest2 := [ScopeDisposed(s)] + tail;
    var rest1 := [Invoked(call)] + rest2;
    assert ScopedSteps(x, s, shape, token, fails) == [ScopeCreated(s)] + rest1;
    assert Select(tail, pick) == if fails(call) then Picked(ErrorLogged(ItemThrew(x)), pick) else [] by {
      SelectOptional(fails(call), ErrorLogged(ItemThrew(x)), pick);
    }
    assert Select(rest2, pick) == Picked(ScopeDisposed(s), pick) + Select(tail, pick) by {
      SelectCons(ScopeDisposed(s), tail, pick);
    }
    assert Select(rest1, pick) == Picked(Invoked(call), pick) + Select(rest2, pick) by {
      SelectCons(Invoked(call), rest2, pick);
    }
    assert Select([ScopeCreated(s)] + rest1, pick) == Picked(ScopeCreated(s), pick) + Select(rest1, pick) by {
      SelectCons(ScopeCreated(s), rest1, pick);
    }
  }

  /** Every taken item is invoked exactly once, in queue order, inside a scope of its own. */
  lemma {:induction false} ScopedTraceCalls(xs: seq<WorkItem>, first: ScopeId, shape: ScopeShape, token: CancellationToken, fails: Call -> bool)
    ensures |Select(ScopedTrace(xs, first, shape, token, fails), CallOf)| == |xs|
    ensures forall i :: 0 <= i < |xs| ==>
      Select(ScopedTrace(xs, first, shape, token, fails), CallOf)[i] == Call(xs[i], ScopeContext(shape, first + i), token)
  {
    if xs != [] {
      var xs' := xs[..|xs| - 1];
      var x := xs[|xs| - 1];
      var s := first + |xs| - 1;
      assert Select(ScopedTrace(xs, first, shape, token, fails), CallOf)
          == Select(ScopedTrace(xs', first, shape, token, fails), CallOf) + [Call(x, ScopeContext(shape, s), token)] by {
        assert ScopedTrace(xs, first, shape, token, fails)
            == ScopedTrace(xs', first, shape, token, fails) + ScopedSteps(x, s, shape, token, fails);
        SelectAppend(ScopedTrace(xs', first, shape, token, fails), ScopedSteps(x, s, shape, token, fails), CallOf);
        ScopedStepsCallsAndErrors(x, s, shape, token, fails);
      }
      ScopedTraceCalls(xs', first, shape, token, fails);
    }
  }

  lemma ScopedStepsCallsAndErrors(x: WorkItem, s: ScopeId, shape: ScopeShape, token: CancellationToken, fails: Call -> bool)
    ensures Select(ScopedSteps(x, s, shape, token, fails), CallOf) == [Call(x, ScopeContext(shape, s), token)]
    ensures Select(ScopedSteps(x, s, shape, token, fails), ErrorOf)
         == if fails(Call(x, ScopeContext(shape, s), token)) then [ItemThrew(x)] else []
  {
    ScopedStepsSelect(x, s, shape, token, fails, CallOf);
    ScopedStepsSelect(x, s, shape, token, fails, ErrorOf);
  }

  lemma ScopedStepsScopes(x: WorkItem, s: ScopeId, shape: ScopeShape, token: CancellationToken, fails: Call -> bool)
    ensures Select(ScopedSteps(x, s, shape, token, fails), CreatedOf) == [s]
    ensures Select(ScopedSteps(x, s, shape, token, fails), DisposedOf) == [s]
  {
    ScopedStepsSelect(x, s, shape, token, fails, CreatedOf);
    ScopedStepsSelect(x, s, shape, token, fails, DisposedOf);
  }

  /** Every scope opened is disposed: item `i` opens and disposes scope `first + i`, and no other. */
  lemma {:induction false} ScopedTraceScopes(xs: seq<WorkItem>, first: ScopeId, shape: ScopeShape, token: CancellationToken, fails: Call -> bool)
    ensures Select(ScopedTrace(xs, first, shape, token, fails), CreatedOf) == seq(|xs|, i => first + i)
    ensures Select(ScopedTrace(xs, first, shape, token, fails), DisposedOf) == seq(|xs|, i => first + i)
  {
    if xs != [] {
      var xs' := xs[..|xs| - 1];
      var x := xs[|xs| - 1];
      var s := first + |xs| - 1;
      assert ScopedTrace(xs, first, shape, token, fails)
          == ScopedTrace(xs', first, shape, token, fails) + ScopedSteps(x, s, shape, token, fails);
      ScopedTraceScopes(xs', first, shape, token, fails);
      assert seq(|xs|, i => first + i) == seq(|xs'|, i => first + i) + [s];
      SelectAppend(ScopedTrace(xs', first, shape, token, fails), ScopedSteps(x, s, shape, token, fails), CreatedOf);
      SelectAppend(ScopedTrace(xs', first, shape, token, fails), ScopedSteps(x, s, shape, token, fails), DisposedOf);
      ScopedStepsScopes(x, s, shape, token, fails);
    }
  }

  /** Exactly one error is logged per invocation that throws, and nothing else is logged. */
  lemma {:induction false} ScopedTraceErrors(xs: seq<WorkItem>, first: ScopeId, shape: ScopeShape, token: CancellationToken, fails: Call -> bool)
    ensures Select(ScopedTrace(xs, first, shape, token, fails), ErrorOf)
         == ThrownBy(Select(ScopedTrace(xs, first, shape, token, fails), CallOf), fails)
  {
    if xs != [] {
      var xs' := xs[..|xs| - 1];
      var x := xs[|xs| - 1];
      var s := first + |xs| - 1;
      assert ScopedTrace(xs, first, shape, token, fails)
          == ScopedTrace(xs', first, shape, token, fails) + ScopedSteps(x, s, shape, token, fails);
      ScopedTraceErrors(xs', first, shape, token, fails);
      SelectAppend(ScopedTrace(xs', first, shape, token, fails), ScopedSteps(x, s, shape, token, fails), CallOf);
      SelectAppend(ScopedTrace(xs', first, shape, token, fails), ScopedSteps(x, s, shape, token, fails), ErrorOf);
      ScopedStepsCallsAndErrors(x, s, shape, token, fails);
      ThrownByAppend(Select(ScopedTrace(xs', first, shape, token, fails), CallOf), Call(x, ScopeContext(shape, s), token), fails);
    }
  }

  /* ---- per-user work items (UserTaskQueuedService, GenericUserTaskQueuedService) ---- */

  /** The start of one per-user item in scope `s`: open it, set the session's subject id, ask for the user. */
  function UserLookup(e: UserEntry, s: ScopeId): seq<Event>
  {
    [ScopeCreated(s), SubjectSet(s, e.key), UserRequested(s)]
  }

  /**
   * The rest: with a user, invoke the item with it and dispose the scope, then log if the
   * item threw; without one, dispose the scope and log the missing user.
   */
  function UserOutcome(e: UserEntry, s: ScopeId, token: CancellationToken, users: map<string, User>, fails: Call -> bool): seq<Event>
  {
    if e.key in users then
      var call := Call(e.item, UserContext(s, users[e.key]), token);
      [Invoked(call), ScopeDisposed(s)] + (if fails(call) then [ErrorLogged(ItemThrew(e.item))] else [])
    else
      [ScopeDisposed(s), ErrorLogged(UserNotFound)]
  }

  function UserSteps(e: UserEntry, s: ScopeId, token: CancellationToken, users: map<string, User>, fails: Call -> bool): seq<Event>
  {
    UserLookup(e, s) + UserOutcome(e, s, token, users, fails)
  }

  function UserTrace(es: seq<UserEntry>, first: ScopeId, token: CancellationToken, users: map<string, User>, fails: Call -> bool): seq<Event>
  {
    if es == [] then []
    else UserTrace(es[..|es| - 1], first, token, users, fails) + UserSteps(es[|es| - 1], first + |es| - 1, token, users, fails)
  }

  /** Taking one more queued item appends that item's steps, in the next scope, to a log that ends in the run so far. */
  lemma UserTraceStep(log: seq<Event>, es: seq<UserEntry>, i: nat, first: ScopeId, token: CancellationToken, users: map<string, User>, fails: Call -> bool)
    requires i < |es|
    ensures log + UserTrace(es[..i + 1], first, token, users, fails)
         == (log + UserTrace(es[..i], first, token, users, fails)) + UserSteps(es[i], first + i, token, users, fails)
  {
    assert es[..i + 1][..i] == es[..i];
  }

  lemma UserLookupSelect<V>(e: UserEntry, s: ScopeId, pick: Event -> Option<V>)
    ensures Select(UserLookup(e, s), pick)
         == Picked(ScopeCreated(s), pick) + Picked(SubjectSet(s, e.key), pick) + Picked(UserRequested(s), pick)
  {
    assert UserLookup(e, s) == [ScopeCreated(s)] + ([SubjectSet(s, e.key)] + ([UserRequested(s)] + []));
    SelectCons(ScopeCreated(s), [SubjectSet(s, e.key)] + ([UserRequested(s)] + []), pick);
    SelectCons(SubjectSet(s, e.key), [UserRequested(s)] + [], pick);
    SelectCons(UserRequested(s), [], pick);
  }

  lemma UserOutcomeSelect<V>(e: UserEntry, s: ScopeId, token: CancellationToken, users: map<string, User>, fails: Call -> bool, pick: Event -> Option<V>)
    ensures e.key in users ==>
      var call := Call(e.item, UserContext(s, users[e.key]), token);
      Select(UserOutcome(e, s, token, users, fails), pick)
      == Picked(Invoked(call), pick) + Picked(ScopeDisposed(s), pick) + (if fails(call) then Picked(ErrorLogged(ItemThrew(e.item)), pick) else [])
    ensures e.key !in users ==>
      Select(UserOutcome(e, s, token, users, fails), pick) == Picked(ScopeDisposed(s), pick) + Picked(ErrorLogged(UserNotFound), pick)
  {
    if e.key in users {
      var call := Call(e.item, UserContext(s, users[e.key]), token);
      var tail: seq<Event> := if fails(call) then [ErrorLogged(ItemThrew(e.item))] else [];
      assert UserOutcome(e, s, token, users, fails) == [Invoked(call)] + ([ScopeDisposed(s)] + tail);
      SelectCons(Invoked(call), [ScopeDisposed(s)] + tail, pick);
      SelectCons(ScopeDisposed(s), tail, pick);
      SelectOptional(fails(call), ErrorLogged(ItemThrew(e.item)), pick);
    } else {
      assert UserOutcome(e, s, token, users, fails) == [ScopeDisposed(s)] + ([ErrorLogged(UserNotFound)] + []);
      SelectCons(ScopeDisposed(s), [ErrorLogged(UserNotFound)] + [], pick);
      SelectCons(ErrorLogged(UserNotFound), [], pick);
    }
  }

  lemma UserStepsSelect<V>(e: UserEntry, s: ScopeId, token: CancellationToken, users: map<string, User>, fails: Call -> bool, pick: Event -> Option<V>)
    ensures Select(UserSteps(e, s, token, users, fails), pick)
         == Select(UserLookup(e, s), pick) + Select(UserOutcome(e, s, token, users, fails), pick)
  {
    SelectAppend(UserLookup(e, s), UserOutcome(e, s, token, users, fails), pick);
  }

  /** Reference: an item is invoked once, in its own scope, with the user its key resolves to, or never. */
  function ExpectedCalls(e: UserEntry, s: ScopeId, token: CancellationToken, users: map<string, User>): seq<Call>
  {
    if e.key in users then [Call(e.item, UserContext(s, users[e.key]), token)] else []
  }

  function AllExpectedCalls(es: seq<UserEntry>, first: ScopeId, token: CancellationToken, users: map<string, User>): seq<Call>
  {
    if es == [] then []
    else AllExpectedCalls(es[..|es| - 1], first, token, users) + ExpectedCalls(es[|es| - 1], first + |es| - 1, token, users)
  }

  lemma UserStepsCalls(e: UserEntry, s: ScopeId, token: CancellationToken, users: map<string, User>, fails: Call -> bool)
    ensures Select(UserSteps(e, s, token, users, fails), CallOf) == ExpectedCalls(e, s, token, users)
  {
    UserStepsSelect(e, s, token, users, fails, CallOf);
    UserLookupSelect(e, s, CallOf);
    UserOutcomeSelect(e, s, token, users, fails, CallOf);
  }

  /** The invocations of a run are exactly the expected ones, item by item in queue order. */
  lemma {:induction false} UserTraceCalls(es: seq<UserEntry>, first: ScopeId, token: CancellationToken, users: map<string, User>, fails: Call -> bool)
    ensures Select(UserTrace(es, first, token, users, fails), CallOf) == AllExpectedCalls(es, first, token, users)
  {
    if es != [] {
      var es' := es[..|es| - 1];
      var s := first + |es| - 1;
      assert UserTrace(es, first, token, users, fails)
          == UserTrace(es', first, token, users, fails) + UserSteps(es[|es| - 1], s, token, users, fails);
      assert AllExpectedCalls(es, first, token, users)
          == AllExpectedCalls(es', first, token, users) + ExpectedCalls(es[|es| - 1], s, token, users);
      UserTraceCalls(es', first, token, users, fails);
      SelectAppend(UserTrace(es', first, token, users, fails), UserSteps(es[|es| - 1], s, token, users, fails), CallOf);
      UserStepsCalls(es[|es| - 1], s, token, users, fails);
    }
  }

  lemma CallsInExpected(e: UserEntry, s: ScopeId, token: CancellationToken, users: map<string, User>, t: ScopeId)
    ensures CallsIn(ExpectedCalls(e, s, token, users), t) == if s == t then ExpectedCalls(e, s, token, users) else []
  {
    var mine := ExpectedCalls(e, s, token, users);
    if mine != [] {
      assert mine[..0] == [];
    }
  }

  /** Expected calls of the items `es` that run in scope `t`. */
  lemma {:induction false} ExpectedCallsIn(es: seq<UserEntry>, first: ScopeId, token: CancellationToken, users: map<string, User>, t: ScopeId)
    ensures first <= t < first + |es| ==> CallsIn(AllExpectedCalls(es, first, token, users), t) == ExpectedCalls(es[t - first], t, token, users)
    ensures !(first <= t < first + |es|) ==> CallsIn(AllExpectedCalls(es, first, token, users), t) == []
  {
    if es != [] {
      var es' := es[..|es| - 1];
      var s := first + |es| - 1;
      var mine := ExpectedCalls(es[|es| - 1], s, token, users);
      var earlier := AllExpectedCalls(es', first, token, users);
      assert CallsIn(AllExpectedCalls(es, first, token, users), t) == CallsIn(earlier, t) + CallsIn(mine, t) by {
        assert AllExpectedCalls(es, first, token, users) == earlier + mine;
        CallsInAppend(earlier, mine, t);
      }
      if t == s {
        assert CallsIn(earlier, t) == [] by { ExpectedCallsIn(es', first, token, users, t); }
        assert CallsIn(mine, t) == mine by { CallsInExpected(es[|es| - 1], s, token, users, t); }
      } else if first <= t < s {
        assert CallsIn(earlier, t) == ExpectedCalls(es'[t - first], t, token, users) by {
          ExpectedCallsIn(es', first, token, users, t);
        }
        assert es'[t - first] == es[t - first];
        assert CallsIn(mine, t) == [] by { CallsInExpected(es[|es| - 1], s, token, users, t); }
      } else {
        assert CallsIn(earlier, t) == [] by { ExpectedCallsIn(es', first, token, users, t); }
        assert CallsIn(mine, t) == [] by { CallsInExpected(es[|es| - 1], s, token, users, t); }
      }
    }
  }

  /**
   * Item `i` is invoked exactly once, in scope `first + i`, with the user its subject id
   * resolves to and the stopping token; when the subject id resolves to no user, it is
   * never invoked.
   */
  lemma UserTraceCallsPerItem(es: seq<UserEntry>, first: ScopeId, token: CancellationToken, users: map<string, User>, fails: Call -> bool, i: nat)
    requires i < |es|
    ensures CallsIn(Select(UserTrace(es, first, token, users, fails), CallOf), first + i)
         == ExpectedCalls(es[i], first + i, token, users)
  {
    assert Select(UserTrace(es, first, token, users, fails), CallOf) == AllExpectedCalls(es, first, token, users) by {
      UserTraceCalls(es, first, token, users, fails);
    }
    var t := first + i;
    assert t - first == i;
    assert CallsIn(AllExpectedCalls(es, first, token, users), t) == ExpectedCalls(es[i], t, token, users) by {
      ExpectedCallsIn(es, first, token, users, t);
    }
  }

  lemma UserStepsSubject(e: UserEntry, s: ScopeId, token: CancellationToken, users: map<string, User>, fails: Call -> bool)
    ensures Select(UserSteps(e, s, token, users, fails), SubjectOf) == [(s, e.key)]
  {
    UserStepsSelect(e, s, token, users, fails, SubjectOf);
    UserLookupSelect(e, s, SubjectOf);
    UserOutcomeSelect(e, s, token, users, fails, SubjectOf);
  }

  /** Item `i`'s subject id is set on the session of its own scope, in queue order. */
  lemma {:induction false} UserTraceSubjects(es: seq<UserEntry>, first: ScopeId, token: CancellationToken, users: map<string, User>, fails: Call -> bool)
    ensures Select(UserTrace(es, first, token, users, fails), SubjectOf) == seq(|es|, i requires 0 <= i < |es| => (first + i, es[i].key))
  {
    if es != [] {
      var es' := es[..|es| - 1];
      var e := es[|es| - 1];
      var s := first + |es| - 1;
      assert Select(UserTrace(es, first, token, users, fails), SubjectOf)
          == Select(UserTrace(es', first, token, users, fails), SubjectOf) + [(s, e.key)] by {
        assert UserTrace(es, first, token, users, fails)
            == UserTrace(es', first, token, users, fails) + UserSteps(e, s, token, users, fails);
        SelectAppend(UserTrace(es', first, token, users, fails), UserSteps(e, s, token, users, fails), SubjectOf);
        UserStepsSubject(e, s, token, users, fails);
      }
      UserTraceSubjects(es', first, token, users, fails);
      assert seq(|es|, i requires 0 <= i < |es| => (first + i, es[i].key))
          == seq(|es'|, i requires 0 <= i < |es'| => (first + i, es'[i].key)) + [(s, e.key)];
    }
  }

  lemma UserStepsScopes(e: UserEntry, s: ScopeId, token: CancellationToken, users: map<string, User>, fails: Call -> bool)
    ensures Select(UserSteps(e, s, token, users, fails), CreatedOf) == [s]
    ensures Select(UserSteps(e, s, token, users, fails), DisposedOf) == [s]
  {
    assert Select(UserSteps(e, s, token, users, fails), CreatedOf) == [s] by {
      UserStepsSelect(e, s, token, users, fails, CreatedOf);
      UserLookupSelect(e, s, CreatedOf);
      UserOutcomeSelect(e, s, token, users, fails, CreatedOf);
    }
    assert Select(UserSteps(e, s, token, users, fails), DisposedOf) == [s] by {
      UserStepsSelect(e, s, token, users, fails, DisposedOf);
      UserLookupSelect(e, s, DisposedOf);
      UserOutcomeSelect(e, s, token, users, fails, DisposedOf);
    }
  }

  /** Item `i` opens scope `first + i` and disposes it, whether or not its user was found. */
  lemma {:induction false} UserTraceScopes(es: seq<UserEntry>, first: ScopeId, token: CancellationToken, users: map<string, User>, fails: Call -> bool)
    ensures Select(UserTrace(es, first, token, users, fails), CreatedOf) == seq(|es|, i => first + i)
    ensures Select(UserTrace(es, first, token, users, fails), DisposedOf) == seq(|es|, i => first + i)
  {
    if es != [] {
      var es' := es[..|es| - 1];
      var e := es[|es| - 1];
      var s := first + |es| - 1;
      assert UserTrace(es, first, token, users, fails)
          == UserTrace(es', first, token, users, fails) + UserSteps(e, s, token, users, fails);
      UserTraceScopes(es', first, token, users, fails);
      assert seq(|es|, i => first + i) == seq(|es'|, i => first + i) + [s];
      SelectAppend(UserTrace(es', first, token, users, fails), UserSteps(e, s, token, users, fails), CreatedOf);
      SelectAppend(UserTrace(es', first, token, users, fails), UserSteps(e, s, token, users, fails), DisposedOf);
      UserStepsScopes(e, s, token, users, fails);
    }
  }

  /** Reference: what one per-user item should log. */
  function UserErrors(e: UserEntry, s: ScopeId, token: CancellationToken, users: map<string, User>, fails: Call -> bool): seq<Failure>
  {
    if e.key !in users then [UserNotFound]
    else if fails(Call(e.item, UserContext(s, users[e.key]), token)) then [ItemThrew(e.item)]
    else []
  }

  /** Reference: the log entries of a run, item by item. */
  function AllUserErrors(es: seq<UserEntry>, first: ScopeId, token: CancellationToken, users: map<string, User>, fails: Call -> bool): seq<Failure>
  {
    if es == [] then []
    else AllUserErrors(es[..|es| - 1], first, token, users, fails) + UserErrors(es[|es| - 1], first + |es| - 1, token, users, fails)
  }

  lemma UserStepsErrors(e: UserEntry, s: ScopeId, token: CancellationToken, users: map<string, User>, fails: Call -> bool)
    ensures Select(UserSteps(e, s, token, users, fails), ErrorOf) == UserErrors(e, s, token, users, fails)
  {
    UserStepsSelect(e, s, token, users, fails, ErrorOf);
    UserLookupSelect(e, s, ErrorOf);
    UserOutcomeSelect(e, s, token, users, fails, ErrorOf);
  }

  /**
   * One error per item that does not complete: the missing user, or the item's own
   * exception; nothing for items that complete.
   */
  lemma {:induction false} UserTraceErrors(es: seq<UserEntry>, first: ScopeId, token: CancellationToken, users: map<string, User>, fails: Call -> bool)
    ensures Select(UserTrace(es, first, token, users, fails), ErrorOf) == AllUserErrors(es, first, token, users, fails)
  {
    if es != [] {
      var es' := es[..|es| - 1];
      var e := es[|es| - 1];
      var s := first + |es| - 1;
      assert UserTrace(es, first, token, users, fails)
          == UserTrace(es', first, token, users, fails) + UserSteps(e, s, token, users, fails);
      assert AllUserErrors(es, first, token, users, fails)
          == AllUserErrors(es', first, token, users, fails) + UserErrors(e, s, token, users, fails);
      UserTraceErrors(es', first, token, users, fails);
      SelectAppend(UserTrace(es', first, token, users, fails), UserSteps(e, s, token, users, fails), ErrorOf);
      UserStepsErrors(e, s, token, users, fails);
    }
  }

  /** Every user lookup in `tr` comes right after a subject id is set on the same scope's session. */
  ghost predicate LookupsFollowSubjects(tr: seq<Event>)
  {
    forall j :: 0 <= j < |tr| && tr[j].UserRequested? ==> 0 < j && tr[j - 1].SubjectSet? && tr[j - 1].scope == tr[j].scope
  }

  /** The user lookup of every item comes right after its subject id is set on the same scope's session. */
  lemma {:induction false} UserTraceLookupFollowsSubject(es: seq<UserEntry>, first: ScopeId, token: CancellationToken, users: map<string, User>, fails: Call -> bool)
    ensures LookupsFollowSubjects(UserTrace(es, first, token, users, fails))
  {
    if es != [] {
      var es' := es[..|es| - 1];
      var e := es[|es| - 1];
      var s := first + |es| - 1;
      var prev := UserTrace(es', first, token, users, fails);
      var lookup: seq<Event> := UserLookup(e, s);
      var outcome := UserOutcome(e, s, token, users, fails);
      UserTraceLookupFollowsSubject(es', first, token, users, fails);
      var tr := prev + lookup + outcome;
      assert tr == UserTrace(es, first, token, users, fails);
      assert forall k :: 0 <= k < |outcome| ==> !outcome[k].UserRequested?;
      forall j | 0 <= j < |tr| && tr[j].UserRequested?
        ensures 0 < j && tr[j - 1].SubjectSet? && tr[j - 1].scope == tr[j].scope
      {
        if j < |prev| {
          assert tr[j] == prev[j];
          assert tr[j - 1] == prev[j - 1];
        } else if j < |prev| + 3 {
          assert tr[j] == lookup[j - |prev|];
          assert j == |prev| + 2;
          assert tr[j - 1] == lookup[1];
        }
      }
    }
  }

  // ---------------------------------------------------------------------------
  // Sessions after a per-user run
  // ---------------------------------------------------------------------------

  /** The scoped sessions after the pairs `es` ran in scopes `first, first + 1, …`. */
  function SessionsAfter(sessions: map<ScopeId, string>, es: seq<UserEntry>, first: ScopeId): map<ScopeId, string>
  {
    if es == [] then sessions
    else SessionsAfter(sessions, es[..|es| - 1], first)[first + |es| - 1 := es[|es| - 1].key]
  }

  /** Running one more pair sets the next scope's session to that pair's subject id. */
  lemma SessionsAfterStep(sessions: map<ScopeId, string>, es: seq<UserEntry>, i: nat, first: ScopeId)
    requires i < |es|
    ensures SessionsAfter(sessions, es[..i + 1], first) == SessionsAfter(sessions, es[..i], first)[first + i := es[i].key]
  {
    assert es[..i + 1][..i] == es[..i];
  }

  /**
   * After a run, the session of scope `first + i` holds pair `i`'s subject id, and the
   * sessions of every other scope are as they were.
   */
  lemma {:induction false} SessionsAfterHoldSubjects(sessions: map<ScopeId, string>, es: seq<UserEntry>, first: ScopeId)
    ensures forall s: ScopeId :: first <= s < first + |es| ==>
      s in SessionsAfter(sessions, es, first) && SessionsAfter(sessions, es, first)[s] == es[s - first].key
    ensures forall s: ScopeId :: s < first || first + |es| <= s ==> (s in SessionsAfter(sessions, es, first) <==> s in sessions)
    ensures forall s: ScopeId :: (s < first || first + |es| <= s) && s in sessions ==> SessionsAfter(sessions, es, first)[s] == sessions[s]
  {
    if es != [] {
      SessionsAfterHoldSubjects(sessions, es[..|es| - 1], first);
    }
  }
}

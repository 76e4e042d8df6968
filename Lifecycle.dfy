/** The `PageLifecycle` context object: the guard that rejects a missing
    context, and the two listener lists (page-state and route changes) with
    add, remove and notify. Callbacks are opaque; their identity is an id. */
module Lifecycle {
  import opened Wrappers
  import opened Values
  import opened Sequences

  datatype LoadingState = Loading | Loaded

  datatype LifecycleState = LifecycleState(currentPageState: LoadingState, currentPageLocation: Location)

  /** The identity of a page-state listener function. */
  datatype StateChangeCallback = StateChangeCallback(id: nat)

  /** The identity of a route listener function. */
  datatype RouteChangeCallback = RouteChangeCallback(id: nat)

  /** One call of a listener with its argument. */
  datatype Invocation<C, A> = Invocation(listener: C, argument: A)

  const ContextMissing :=
    "Page lifecycle provider context missing, ensure you have wrapped your application in a PageLifecycleProvider"

  /** `ensureContext`: fails with the configuration error exactly when the
      context is absent, and otherwise returns the given context itself. */
  function EnsureContext(context: Option<PageLifecycle>): (r: Result<PageLifecycle, string>)
    ensures r.Failure? <==> context.None?
    ensures r.Failure? ==> r.error == ContextMissing
    ensures r.Success? ==> r.value == context.value
  {
    match context
    case None => Failure(ContextMissing)
    case Some(c) => Success(c)
  }

  class PageLifecycle {
    var currentPageState: LoadingState
    var currentPageLocation: Location
    var stateChangedListeners: seq<StateChangeCallback>
    var routeChangedListeners: seq<RouteChangeCallback>

    /** Both listener lists start empty. */
    constructor (state: LoadingState, location: Location)
      ensures currentPageState == state && currentPageLocation == location
      ensures stateChangedListeners == [] && routeChangedListeners == []
    {
      currentPageState := state;
      currentPageLocation := location;
      stateChangedListeners := [];
      routeChangedListeners := [];
    }

    /** `pageStateChanged`: every page-state listener is called once, in list
        order, with the same state. */
    method PageStateChanged(state: LifecycleState) returns (calls: seq<Invocation<StateChangeCallback, LifecycleState>>)
      ensures |calls| == |stateChangedListeners|
      ensures forall i :: 0 <= i < |calls| ==> calls[i] == Invocation(stateChangedListeners[i], state)
    {
      calls := [];
      for i := 0 to |stateChangedListeners|
        invariant |calls| == i
        invariant forall j :: 0 <= j < i ==> calls[j] == Invocation(stateChangedListeners[j], state)
      {
        calls := calls + [Invocation(stateChangedListeners[i], state)];
      }
    }

    /** `routeChanged`: every route listener is called once, in list order, with
        the same location. */
    method RouteChanged(newLocation: Location) returns (calls: seq<Invocation<RouteChangeCallback, Location>>)
      ensures |calls| == |routeChangedListeners|
      ensures forall i :: 0 <= i < |calls| ==> calls[i] == Invocation(routeChangedListeners[i], newLocation)
    {
      calls := [];
      for i := 0 to |routeChangedListeners|
        invariant |calls| == i
        invariant forall j :: 0 <= j < i ==> calls[j] == Invocation(routeChangedListeners[j], newLocation)
      {
        calls := calls + [Invocation(routeChangedListeners[i], newLocation)];
      }
    }

    /** `onPageStateChanged`: append, duplicates allowed. */
    method OnPageStateChanged(callback: StateChangeCallback)
      modifies this
      ensures stateChangedListeners == old(stateChangedListeners) + [callback]
      ensures routeChangedListeners == old(routeChangedListeners)
      ensures currentPageState == old(currentPageState) && currentPageLocation == old(currentPageLocation)
    {
      stateChangedListeners := stateChangedListeners + [callback];
    }

    /** `offPageStateChanged`: remove the first occurrence, if any; the route
        listeners are untouched. */
    method OffPageStateChanged(callback: StateChangeCallback)
      modifies this
      ensures stateChangedListeners == RemoveFirst(old(stateChangedListeners), callback)
      ensures callback !in old(stateChangedListeners) ==> stateChangedListeners == old(stateChangedListeners)
      ensures multiset(stateChangedListeners) == multiset(old(stateChangedListeners)) - multiset{callback}
      ensures routeChangedListeners == old(routeChangedListeners)
      ensures currentPageState == old(currentPageState) && currentPageLocation == old(currentPageLocation)
    {
      RemoveFirstSpec(stateChangedListeners, callback);
      RemoveFirstMultiset(stateChangedListeners, callback);
      var listenerIndex := IndexOf(stateChangedListeners, callback);
      if listenerIndex != -1 {
        stateChangedListeners := SpliceOne(stateChangedListeners, listenerIndex);
      }
    }

    /** `onRouteChanged`: append, duplicates allowed. */
    method OnRouteChanged(callback: RouteChangeCallback)
      modifies this
      ensures routeChangedListeners == old(routeChangedListeners) + [callback]
      ensures stateChangedListeners == old(stateChangedListeners)
      ensures currentPageState == old(currentPageState) && currentPageLocation == old(currentPageLocation)
    {
      routeChangedListeners := routeChangedListeners + [callback];
    }

    /** `offRouteChanged`: remove the first occurrence, if any; the page-state
        listeners are untouched. */
    method OffRouteChanged(callback: RouteChangeCallback)
      modifies this
      ensures routeChangedListeners == RemoveFirst(old(routeChangedListeners), callback)
      ensures callback !in old(routeChangedListeners) ==> routeChangedListeners == old(routeChangedListeners)
      ensures multiset(routeChangedListeners) == multiset(old(routeChangedListeners)) - multiset{callback}
      ensures stateChangedListeners == old(stateChangedListeners)
      ensures currentPageState == old(currentPageState) && currentPageLocation == old(currentPageLocation)
    {
      RemoveFirstSpec(routeChangedListeners, callback);
      RemoveFirstMultiset(routeChangedListeners, callback);
      var listenerIndex := IndexOf(routeChangedListeners, callback);
      if listenerIndex != -1 {
        routeChangedListeners := SpliceOne(routeChangedListeners, listenerIndex);
      }
    }
  }

  /** A listener added and then removed is no longer called back; the one
      added before it still is. */
  method SubscribeThenUnsubscribe(first: StateChangeCallback, callback: StateChangeCallback, state: LifecycleState)
    returns (calls: seq<Invocation<StateChangeCallback, LifecycleState>>)
    requires first != callback
    ensures calls == [Invocation(first, state)]
  {
    var lifecycle := new PageLifecycle(Loading, state.currentPageLocation);
    lifecycle.OnPageStateChanged(first);
    lifecycle.OnPageStateChanged(callback);
    lifecycle.OffPageStateChanged(callback);
    RemoveFirstAfterAppend([first], callback);
    calls := lifecycle.PageStateChanged(state);
  }
}

/** The load-coordination state machine of `PageLifecycleProvider`: a load
    counter, the "routing" flag, route-change detection against the previous
    location, and the start/complete events it raises with the merged page
    metadata. React's render and effect phases are explicit steps (`Render`,
    `Effect`) that the caller sequences. */
module Provider {
  import opened Wrappers
  import opened Values
  import opened PageProps

  /** The event types. `PageLoadFailed` is declared by the source but raised by
      no code path. */
  datatype EventKind = PageLoadStarted | PageLoadFailed | PageLoadComplete

  /** An event as handed to the `onEvent` sink; the timestamp is left out. */
  datatype PageEvent = PageEvent(kind: EventKind, originator: string, payload: Properties)

  const Originator := "PageEvents"
  const LocationKey := "location"

  /** `reduce((acc, val) => ({ ...acc, ...val.current }), {})`: a left fold of the
      slot contents in which a later slot overrides an earlier one. */
  function Merge(slots: seq<Properties>): Properties {
    if slots == [] then map[] else Merge(slots[..|slots| - 1]) + slots[|slots| - 1]
  }

  /** The fold has exactly the keys of the slots; with no slots it is empty. */
  lemma {:induction false} MergeKeys(slots: seq<Properties>)
    ensures forall k :: k in Merge(slots) <==> exists i :: 0 <= i < |slots| && k in slots[i]
    ensures slots == [] ==> Merge(slots) == map[]
  {
    if slots != [] {
      var front := slots[..|slots| - 1];
      MergeKeys(front);
      forall k | k in Merge(slots)
        ensures exists i :: 0 <= i < |slots| && k in slots[i]
      {
        if k !in slots[|slots| - 1] {
          assert k in Merge(front);
          var i :| 0 <= i < |front| && k in front[i];
          assert slots[i] == front[i];
        }
      }
      forall k, i | 0 <= i < |slots| && k in slots[i]
        ensures k in Merge(slots)
      {
        if i < |front| {
          assert front[i] == slots[i];
        }
      }
    }
  }

  /** On a key collision the last slot that holds the key wins. */
  lemma {:induction false} MergeLastWins(slots: seq<Properties>, i: int, k: string)
    requires 0 <= i < |slots| && k in slots[i]
    requires forall j :: i < j < |slots| ==> k !in slots[j]
    ensures k in Merge(slots) && Merge(slots)[k] == slots[i][k]
  {
    if i < |slots| - 1 {
      var front := slots[..|slots| - 1];
      assert front[i] == slots[i];
      forall j | i < j < |front| ensures k !in front[j] {
        assert front[j] == slots[j];
      }
      MergeLastWins(front, i, k);
    }
  }

  /** Folding a concatenation is merging the folds: the fold does not depend on
      how the slot list is split. */
  lemma {:induction false} MergeAppend(a: seq<Properties>, b: seq<Properties>)
    ensures Merge(a + b) == Merge(a) + Merge(b)
  {
    if b == [] {
      assert a + b == a;
    } else {
      var b', last := b[..|b| - 1], b[|b| - 1];
      assert (a + b)[..|a + b| - 1] == a + b';
      assert (a + b)[|a + b| - 1] == last;
      assert Merge(a + b) == Merge(a + b') + last;
      assert Merge(b) == Merge(b') + last;
      MergeAppend(a, b');
      UnionAssociative(Merge(a), Merge(b'), last);
    }
  }

  lemma UnionAssociative(x: Properties, y: Properties, z: Properties)
    ensures (x + y) + z == x + (y + z)
  {
  }

  /** The event payload: the merged metadata with `location` written last, so it
      overrides any `location` key of a slot. */
  function Payload(slots: seq<Properties>, location: Location): Properties {
    Merge(slots)[LocationKey := LocationValue(location)]
  }

  /** The payload's `location` is the given one; every other key is present
      exactly when some slot holds it. */
  lemma PayloadKeys(slots: seq<Properties>, location: Location)
    ensures LocationKey in Payload(slots, location)
    ensures Payload(slots, location)[LocationKey] == LocationValue(location)
    ensures forall k :: k != LocationKey ==>
      (k in Payload(slots, location) <==> exists i :: 0 <= i < |slots| && k in slots[i])
  {
    MergeKeys(slots);
  }

  /** Every key other than `location` carries the value of the last slot that
      holds it. */
  lemma PayloadLastWins(slots: seq<Properties>, location: Location, i: int, k: string)
    requires k != LocationKey
    requires 0 <= i < |slots| && k in slots[i]
    requires forall j :: i < j < |slots| ==> k !in slots[j]
    ensures k in Payload(slots, location) && Payload(slots, location)[k] == slots[i][k]
  {
    MergeLastWins(slots, i, k);
  }

  /** `raisePageLoadStartEvent`. */
  function PageLoadStartEvent(slots: seq<Properties>, location: Location): PageEvent {
    PageEvent(PageLoadStarted, Originator, Payload(slots, location))
  }

  /** `raisePageLoadCompleteEvent`. */
  function PageLoadCompleteEvent(slots: seq<Properties>, location: Location): PageEvent {
    PageEvent(PageLoadComplete, Originator, Payload(slots, location))
  }

  /** The number of complete events in a stream. */
  function CompleteCount(events: seq<PageEvent>): nat {
    if events == [] then 0
    else (if events[0].kind == PageLoadComplete then 1 else 0) + CompleteCount(events[1..])
  }

  lemma {:induction false} CompleteCountAppend(events: seq<PageEvent>, e: PageEvent)
    ensures CompleteCount(events + [e]) == CompleteCount(events) + (if e.kind == PageLoadComplete then 1 else 0)
  {
    if events != [] {
      assert (events + [e])[1..] == events[1..] + [e];
      CompleteCountAppend(events[1..], e);
    } else {
      assert ([] + [e])[1..] == [];
    }
  }

  /** No failed event was raised. */
  ghost predicate NoFailure(events: seq<PageEvent>) {
    forall i :: 0 <= i < |events| ==> events[i].kind != PageLoadFailed
  }

  /** Appending an event that is not a failure keeps the stream free of failures
      and adds one to the complete count exactly when it is a complete. */
  lemma Emit(events: seq<PageEvent>, e: PageEvent)
    requires NoFailure(events) && e.kind != PageLoadFailed
    ensures NoFailure(events + [e])
    ensures CompleteCount(events + [e]) == CompleteCount(events) + (if e.kind == PageLoadComplete then 1 else 0)
  {
    CompleteCountAppend(events, e);
  }

  class PageLifecycleProvider {
    /** `contextValue.currentPageProps`, shared with the `PageProps` components. */
    const registry: SlotRegistry
    /** `loadingDataCount`: loads begun and not yet ended; it has no floor. */
    var count: int
    /** `isRouting`: the current navigation has not yet been reported complete. */
    var isRouting: bool
    /** What `usePrevious(location)` returns: the location of the last effect. */
    var prev: Option<Location>
    /** `locationRef.current`: the location of the last render. */
    var latest: Location
    /** Every event handed to `onEvent`, in order. */
    var events: seq<PageEvent>
    /** How many times the routing flag has been raised, the initial load included. */
    ghost var arms: nat

    /** Each complete event answers exactly one raising of the flag and lowers it,
        and no failed event is ever raised; so two complete events always have a
        raising of the flag between them. Steps run atomically: the event sink
        is taken not to call back into the provider. */
    ghost predicate Valid()
      reads this, registry
    {
      && registry.Valid()
      && NoFailure(events)
      && CompleteCount(events) + (if isRouting then 1 else 0) == arms
    }

    /** Mount: the counter at 0, the flag raised for the initial load, no
        previous location, an empty slot list, no events. */
    constructor (location: Location)
      ensures Valid() && fresh(registry)
      ensures registry.slots == [] && registry.contents == map[]
      ensures count == 0 && isRouting && prev == None && latest == location
      ensures events == [] && arms == 1
    {
      registry := new SlotRegistry();
      count := 0;
      isRouting := true;
      prev := None;
      latest := location;
      events := [];
      arms := 1;
    }

    /** The render phase: record the location, and raise the flag when there is a
        previous location, the flag is down and the location object changed. */
    method Render(location: Location)
      requires Valid()
      modifies this
      ensures Valid()
      ensures latest == location
      ensures isRouting == (old(isRouting) || (old(prev).Some? && old(prev).value != location))
      ensures count == old(count) && events == old(events) && prev == old(prev)
      ensures arms == old(arms) + (if isRouting && !old(isRouting) then 1 else 0)
    {
      latest := location;
      if prev.Some? && !isRouting {
        if prev.value != location {
          isRouting := true;
          arms := arms + 1;
        }
      }
    }

    /** The effect phase, for the location of the render it follows (an effect
        belongs to the render just before it): while the
        flag is up, raise a start event and, when no load is outstanding, a
        complete event right after it, lowering the flag; then remember the
        location as the previous one. */
    method Effect(location: Location)
      requires Valid() && location == latest
      modifies this
      ensures Valid()
      ensures prev == Some(location)
      ensures count == old(count) && latest == old(latest) && arms == old(arms)
      ensures !old(isRouting) ==> events == old(events) && !isRouting
      ensures old(isRouting) && count == 0 ==>
        && !isRouting
        && events == old(events) + [PageLoadStartEvent(registry.Contents(), location)]
                                 + [PageLoadCompleteEvent(registry.Contents(), location)]
      ensures old(isRouting) && count != 0 ==>
        && isRouting
        && events == old(events) + [PageLoadStartEvent(registry.Contents(), location)]
    {
      if isRouting {
        var props := registry.Contents();
        var start := PageLoadStartEvent(props, location);
        Emit(events, start);
        events := events + [start];
        if count == 0 {
          var complete := PageLoadCompleteEvent(props, location);
          Emit(events, complete);
          events := events + [complete];
          isRouting := false;
        }
      }
      prev := Some(location);
    }

    /** `beginLoadingData`: one more outstanding load, nothing else. */
    method Begin()
      requires Valid()
      modifies this
      ensures Valid()
      ensures count == old(count) + 1
      ensures isRouting == old(isRouting) && events == old(events)
      ensures prev == old(prev) && latest == old(latest) && arms == old(arms)
    {
      count := count + 1;
    }

    /** `endLoadingData`: one load fewer; when that leaves none outstanding while
        the flag is up, raise the complete event for the latest rendered location
        and lower the flag. A late end, after the page was reported complete,
        raises nothing. */
    method End()
      requires Valid()
      modifies this
      ensures Valid()
      ensures count == old(count) - 1
      ensures prev == old(prev) && latest == old(latest) && arms == old(arms)
      ensures count == 0 && old(isRouting) ==>
        && !isRouting
        && events == old(events) + [PageLoadCompleteEvent(registry.Contents(), latest)]
      ensures !(count == 0 && old(isRouting)) ==>
        && isRouting == old(isRouting)
        && events == old(events)
    {
      count := count - 1;
      if count == 0 && isRouting {
        var complete := PageLoadCompleteEvent(registry.Contents(), latest);
        Emit(events, complete);
        events := events + [complete];
        isRouting := false;
      }
    }
  }

  // The client methods below drive the steps through whole traces. Their
  // intermediate assertions document the state after each step and keep each
  // proof obligation small.

  /** A page without data loads: the first effect raises start and complete
      together. */
  method InitialLoadWithoutData(a: Location) returns (events: seq<PageEvent>)
    ensures events == [PageLoadStartEvent([], a), PageLoadCompleteEvent([], a)]
  {
    var p := new PageLifecycleProvider(a);
    assert p.registry.Contents() == [];
    p.Render(a);
    assert p.isRouting && p.count == 0 && p.events == [];
    p.Effect(a);
    events := p.events;
  }

  /** What can happen between mounting and the provider's first effect: a
      render, a child beginning a load in its own mount effect (which runs before
      the provider's), and a `PageProps` slot rendering its metadata. An end is
      deliberately not among them; see `EndBeforeFirstEffect`. */
  datatype MountStep =
    | RenderAt(location: Location)
    | BeginLoad
    | RenderProps(id: SlotId, pageProperties: Option<Properties>)

  /** The location of the last render among the steps, or the mount location. */
  function LastRendered(mounted: Location, steps: seq<MountStep>): Location {
    if steps == [] then mounted
    else match steps[|steps| - 1]
      case RenderAt(location) => location
      case _ => LastRendered(mounted, steps[..|steps| - 1])
  }

  /** Renders, begun loads and slot renders never lower the flag, which starts
      raised (line 68 of the provider); so the first effect after any number of
      them raises a start event, first in the stream, for the last rendered
      location, followed by a complete event at most. */
  method FirstEffectStarts(mounted: Location, steps: seq<MountStep>) returns (events: seq<PageEvent>)
    ensures 1 <= |events| <= 2
    ensures events[0].kind == PageLoadStarted
    ensures LocationKey in events[0].payload
    ensures events[0].payload[LocationKey] == LocationValue(LastRendered(mounted, steps))
    ensures |events| == 2 ==> events[1].kind == PageLoadComplete
  {
    var p := new PageLifecycleProvider(mounted);
    var i := 0;
    while i < |steps|
      invariant 0 <= i <= |steps|
      invariant p.Valid() && fresh(p.registry)
      invariant p.isRouting && p.events == [] && p.prev == None
      invariant p.latest == LastRendered(mounted, steps[..i])
    {
      assert steps[..i + 1][..i] == steps[..i];
      match steps[i] {
        case RenderAt(location) => p.Render(location);
        case BeginLoad => p.Begin();
        case RenderProps(id, pageProperties) => p.registry.RenderSlot(id, pageProperties);
      }
      i := i + 1;
    }
    assert steps[..|steps|] == steps;
    var contents := p.registry.Contents();
    p.Effect(p.latest);
    events := p.events;
    PayloadKeys(contents, LastRendered(mounted, steps));
  }

  /** A child that begins and ends a load before the provider's first effect
      lowers the flag: the initial load is reported complete and never started. */
  method EndBeforeFirstEffect(a: Location) returns (events: seq<PageEvent>)
    ensures events == [PageLoadCompleteEvent([], a)]
  {
    var p := new PageLifecycleProvider(a);
    assert p.registry.Contents() == [];
    p.Render(a);
    assert p.isRouting && p.count == 0 && p.events == [];
    p.Begin();
    assert p.isRouting && p.count == 1 && p.events == [];
    p.End();
    assert !p.isRouting && p.latest == a && p.events == [PageLoadCompleteEvent([], a)];
    p.Effect(a);
    events := p.events;
  }

  /** A page that begins a load while rendering: only the start event until the
      load ends, then exactly one complete event. */
  method LoadDuringRender(a: Location) returns (beforeEnd: seq<PageEvent>, afterEnd: seq<PageEvent>)
    ensures beforeEnd == [PageLoadStartEvent([], a)]
    ensures afterEnd == beforeEnd + [PageLoadCompleteEvent([], a)]
  {
    var p := new PageLifecycleProvider(a);
    assert p.registry.Contents() == [];
    p.Render(a);
    assert p.isRouting && p.count == 0 && p.events == [];
    p.Begin();
    assert p.isRouting && p.count == 1 && p.events == [];
    p.Effect(a);
    assert p.isRouting && p.count == 1 && p.latest == a;
    beforeEnd := p.events;
    p.End();
    afterEnd := p.events;
  }

  /** A lazily loaded page: the loader begins a load in its mount effect (which
      runs before the provider's), the loaded page begins another as it renders,
      and the loader's end alone does not complete the page. */
  method LazyLoadedPage(a: Location) returns (afterLoaderEnd: seq<PageEvent>, afterPageEnd: seq<PageEvent>)
    ensures afterLoaderEnd == [PageLoadStartEvent([], a)]
    ensures afterPageEnd == afterLoaderEnd + [PageLoadCompleteEvent([], a)]
  {
    var p := new PageLifecycleProvider(a);
    assert p.registry.Contents() == [];
    p.Render(a);
    assert p.isRouting && p.count == 0 && p.events == [];
    p.Begin();
    assert p.isRouting && p.count == 1 && p.events == [];
    p.Effect(a);
    assert p.isRouting && p.count == 1 && p.latest == a;
    p.Begin();
    p.End();
    assert p.isRouting && p.count == 1;
    afterLoaderEnd := p.events;
    p.End();
    afterPageEnd := p.events;
  }

  /** A navigation with no new load completes as soon as its effect runs. */
  method NavigationWithoutNewLoads(a: Location, b: Location) returns (events: seq<PageEvent>)
    requires a != b
    ensures events == [PageLoadStartEvent([], a), PageLoadCompleteEvent([], a),
                       PageLoadStartEvent([], b), PageLoadCompleteEvent([], b)]
  {
    var sa, ca := PageLoadStartEvent([], a), PageLoadCompleteEvent([], a);
    var sb, cb := PageLoadStartEvent([], b), PageLoadCompleteEvent([], b);
    var p := new PageLifecycleProvider(a);
    assert p.registry.Contents() == [];
    p.Render(a);
    assert p.isRouting && p.count == 0 && p.events == [];
    p.Begin();
    assert p.isRouting && p.count == 1 && p.events == [];
    p.Effect(a);
    assert p.isRouting && p.count == 1 && p.latest == a && p.events == [sa];
    p.End();
    assert !p.isRouting && p.count == 0 && p.prev == Some(a) && p.events == [sa, ca];
    p.Render(b);
    assert p.isRouting && p.count == 0 && p.events == [sa, ca];
    p.Effect(b);
    assert p.events == [sa, ca] + [sb] + [cb];
    events := p.events;
  }

  /** A navigation while a load of the old page is outstanding: the new page's
      start is raised once, and the outstanding end completes the new page with
      its location; the old page never gets a complete event. */
  method NavigationWhileLoading(a: Location, b: Location) returns (events: seq<PageEvent>)
    requires a != b
    ensures events == [PageLoadStartEvent([], a), PageLoadStartEvent([], b),
                       PageLoadCompleteEvent([], b)]
  {
    var sa := PageLoadStartEvent([], a);
    var sb, cb := PageLoadStartEvent([], b), PageLoadCompleteEvent([], b);
    var p := new PageLifecycleProvider(a);
    assert p.registry.Contents() == [];
    p.Render(a);
    assert p.isRouting && p.count == 0 && p.events == [];
    p.Begin();
    assert p.isRouting && p.count == 1 && p.events == [];
    p.Effect(a);
    assert p.isRouting && p.count == 1 && p.prev == Some(a) && p.events == [sa];
    p.Render(b);
    assert p.isRouting && p.count == 1 && p.latest == b && p.events == [sa];
    p.Effect(b);
    assert p.isRouting && p.count == 1 && p.latest == b && p.events == [sa, sb];
    p.End();
    assert p.events == [sa, sb] + [cb];
    events := p.events;
  }

  /** An end that arrives between a navigation's render and its effect raises the
      complete event before any start event of that navigation, and the effect
      then raises nothing. */
  method CompleteBeforeStart(a: Location, b: Location) returns (events: seq<PageEvent>)
    requires a != b
    ensures events == [PageLoadStartEvent([], a), PageLoadCompleteEvent([], b)]
  {
    var sa, cb := PageLoadStartEvent([], a), PageLoadCompleteEvent([], b);
    var p := new PageLifecycleProvider(a);
    assert p.registry.Contents() == [];
    p.Render(a);
    assert p.isRouting && p.count == 0 && p.events == [];
    p.Begin();
    assert p.isRouting && p.count == 1 && p.events == [];
    p.Effect(a);
    assert p.isRouting && p.count == 1 && p.prev == Some(a) && p.events == [sa];
    p.Render(b);
    assert p.isRouting && p.count == 1 && p.latest == b && p.events == [sa];
    p.End();
    assert !p.isRouting && p.events == [sa, cb];
    p.Effect(b);
    events := p.events;
  }

  /** Metadata registered while the page renders is in the payload of both
      events of the initial load, with its own values, under the location. */
  method MetadataBeforeStart(a: Location, id: SlotId, props: Properties) returns (events: seq<PageEvent>)
    ensures events == [PageLoadStartEvent([props], a), PageLoadCompleteEvent([props], a)]
    ensures forall k :: k in props && k != LocationKey ==>
      k in events[0].payload && events[0].payload[k] == props[k]
  {
    var p := new PageLifecycleProvider(a);
    SlotContentsAt(p.registry.slots, p.registry.contents);
    assert p.registry.Contents() == [];
    p.Render(a);
    assert p.isRouting && p.count == 0 && p.events == [] && p.latest == a;
    p.registry.RenderSlot(id, Some(props));
    assert p.registry.Contents() == [] + [props] == [props];
    assert p.isRouting && p.count == 0 && p.events == [] && p.latest == a;
    p.Effect(a);
    assert p.events == [] + [PageLoadStartEvent([props], a)] + [PageLoadCompleteEvent([props], a)];
    events := p.events;
    forall k | k in props && k != LocationKey
      ensures k in events[0].payload && events[0].payload[k] == props[k]
    {
      PayloadLastWins([props], a, 0, k);
    }
  }
}

/** The route transition store as the object the source updates in place. */
module TransitionStore {
  import opened Common
  import opened Transitions

  class MemoryRouteTransitionStore {
    const limits: Limits
    var rings: seq<Scope>
    var routeCount: int
    var clock: nat    // history: how many records there were

    ghost function View(): State
      reads this
    {
      State(rings, routeCount, clock)
    }

    constructor (limits: Limits)
      ensures this.limits == limits && View() == EMPTY
    {
      this.limits, rings, routeCount, clock := limits, [], 0, 0;
    }

    /** `ring`: finds or makes the scope's map. */
    method Ring(scope: string) returns (routes: seq<Route>)
      modifies this`rings
      ensures rings == EnsureScope(old(rings), scope) && routes == RoutesOf(rings, scope)
    {
      if !HasScope(rings, scope) {
        rings := rings + [Scope(scope, [])];
      }
      routes := RoutesOf(rings, scope);
    }

    method EvictOldest()
      modifies this`rings, this`routeCount
      ensures rings == Evict(old(rings))
      ensures routeCount == if Total(old(rings)) > 0 then old(routeCount) - 1 else old(routeCount)
    {
      ghost var before := rings;
      hide Evict, Total;
      var i := 0;
      assert rings[..0] == [] && rings[0..] == rings && [] + Evict(rings) == Evict(rings);
      while i < |rings|
        invariant i <= |rings| && rings == before && routeCount == old(routeCount)
        invariant Evict(rings) == rings[..i] + Evict(rings[i..]) && Total(rings) == Total(rings[i..])
      {
        var scope, rest := rings[i], rings[i + 1..];
        assert rings[i..] == [scope] + rest;
        if scope.routes != [] {
          HitTurn(scope, rest);
          var routes := scope.routes[1..];
          rings := rings[..i] + (if routes == [] then rest else [Scope(scope.name, routes)] + rest);
          routeCount := routeCount - 1;
          return;
        }
        SkipTurn(rings[..i], scope, rest);
        assert rings[..i + 1] == rings[..i] + [scope];
        i := i + 1;
      }
      NoneLeft();
      assert rings[..|rings|] == rings && rings[|rings|..] == [];
    }

    method Record(scope: string, id: string, event: Event)
      modifies this
      ensures View() == Transitions.Record(limits, old(View()), scope, id, event)
    {
      ghost var before := View();
      hide EnsureScope, RoutesOf, RouteIn, PutScope, PutRoute, Evict, Total, Last;
      var routes := Ring(scope);
      EnsuredTwice(before.rings, scope);
      var found := RouteIn(routes, id);
      if found.None? && routeCount >= limits.maxRoutes {
        EvictOldest();
      }
      var now := Ring(scope);
      var route := if found.Some? then found.value else Route(id, [], [], clock);
      var events := route.events + [event];
      if |events| > limits.maxEvents { events := events[|events| - limits.maxEvents..]; }
      assert events == Last(route.events + [event], limits.maxEvents) by
          { LastIs(route.events + [event], limits.maxEvents); }
      var pushed := route.(events := events, log := route.log + [event]);
      rings := PutScope(rings, scope, if found.Some? then PutRoute(now, pushed) else now + [pushed]);
      if found.None? { routeCount := routeCount + 1; }
      clock := clock + 1;
    }

    method Latest(scope: string, id: string) returns (latest: Option<Event>)
      ensures var route := Lookup(rings, scope, id);
              latest == if route.None? || route.value.events == [] then None
                        else Some(route.value.events[|route.value.events| - 1])
    {
      var route := RouteIn(RoutesOf(rings, scope), id);
      if route.None? || |route.value.events| == 0 { return None; }
      return Some(route.value.events[|route.value.events| - 1]);
    }
  }

  /** One turn of the eviction loop over a scope without routes. */
  lemma SkipTurn(done: seq<Scope>, scope: Scope, rest: seq<Scope>)
    requires scope.routes == []
    ensures done + Evict([scope] + rest) == done + [scope] + Evict(rest)
    ensures Total([scope] + rest) == Total(rest)
  {
    assert ([scope] + rest)[1..] == rest;
    var left := Evict(rest);
    assert Evict([scope] + rest) == [scope] + left;
    hide Evict;
    assert done + ([scope] + left) == done + [scope] + left;
  }

  lemma NoneLeft()
    ensures Evict([]) == [] && Total([]) == 0
  {
  }

  /** And over one that has some. */
  lemma HitTurn(scope: Scope, rest: seq<Scope>)
    requires scope.routes != []
    ensures Total([scope] + rest) > 0
    ensures Evict([scope] + rest) == if scope.routes[1..] == [] then rest
            else [Scope(scope.name, scope.routes[1..])] + rest
  {
    assert ([scope] + rest)[1..] == rest;
    assert |scope.routes| == 1 + |scope.routes[1..]|;
  }

  lemma LastIs(events: seq<Event>, n: nat)
    ensures Last(events, n) == if |events| > n then events[|events| - n..] else events
  {
  }

  lemma {:induction false} EnsuredTwice(rings: seq<Scope>, name: string)
    ensures EnsureScope(EnsureScope(rings, name), name) == EnsureScope(rings, name)
  {
    if !HasScope(rings, name) { AppendedHas(rings, name); }
  }

  lemma {:induction false} AppendedHas(rings: seq<Scope>, name: string)
    ensures HasScope(rings + [Scope(name, [])], name)
  {
    var more := rings + [Scope(name, [])];
    if rings == [] {
      assert more[0] == Scope(name, []);
    } else {
      AppendedHas(rings[1..], name);
      assert more[1..] == rings[1..] + [Scope(name, [])];
    }
  }

  /** Right after a record the store reports that very event, unless it keeps no events. */
  lemma LatestIsRecorded(limits: Limits, s: State, scope: string, id: string, event: Event)
    requires Ok(limits, s)
    ensures var route := Lookup(Record(limits, s, scope, id, event).rings, scope, id);
            route.Some? && if limits.maxEvents == 0 then route.value.events == []
                           else route.value.events != [] && route.value.events[|route.value.events| - 1] == event
  {
    RecordAppends(limits, s, scope, id, event);
    RecordKeeps(limits, s, scope, id, event);
    var t := Record(limits, s, scope, id, event);
    RoutesOfScope(limits, t.rings, scope, t.clock);
    RouteMembers(RoutesOf(t.rings, scope), id);
    hide Record, Lookup, RingsOk, NoEmpty;
    var route := RouteIn(RoutesOf(t.rings, scope), id).value;
    assert RouteOk(limits, route, t.clock);
  }
}

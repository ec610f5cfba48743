/** The bounded store of route switches (`MemoryRouteTransitionStore` in
    src/console/route-transitions.ts): a map of scopes in insertion order, each a map of
    routes in insertion order, each a ring of events. */
module Transitions {
  import opened Common

  type Event = int

  /** `log` and `born` are history: every event since the route was last inserted, and when
      that was. */
  datatype Route = Route(id: string, events: seq<Event>, log: seq<Event>, born: nat)

  datatype Scope = Scope(name: string, routes: seq<Route>)

  datatype Limits = Limits(maxRoutes: nat, maxEvents: nat)

  datatype State = State(rings: seq<Scope>, routeCount: int, clock: nat)

  function Last(events: seq<Event>, n: nat): seq<Event> {
    if |events| > n then events[|events| - n..] else events
  }

  function RouteIn(routes: seq<Route>, id: string): Option<Route> {
    if routes == [] then None else if routes[0].id == id then Some(routes[0]) else RouteIn(routes[1..], id)
  }

  function HasScope(rings: seq<Scope>, name: string): bool {
    rings != [] && (rings[0].name == name || HasScope(rings[1..], name))
  }

  function RoutesOf(rings: seq<Scope>, name: string): seq<Route> {
    if rings == [] then [] else if rings[0].name == name then rings[0].routes else RoutesOf(rings[1..], name)
  }

  function Lookup(rings: seq<Scope>, name: string, id: string): Option<Route> {
    RouteIn(RoutesOf(rings, name), id)
  }

  /** `ring`: the scope's map, made at the end of the outer map when it is missing. */
  function EnsureScope(rings: seq<Scope>, name: string): seq<Scope> {
    if HasScope(rings, name) then rings else rings + [Scope(name, [])]
  }

  function PutScope(rings: seq<Scope>, name: string, routes: seq<Route>): (put: seq<Scope>)
    ensures |put| == |rings|
  {
    if rings == [] then []
    else if rings[0].name == name then [Scope(name, routes)] + rings[1..]
    else [rings[0]] + PutScope(rings[1..], name, routes)
  }

  function PutRoute(routes: seq<Route>, route: Route): (put: seq<Route>)
    ensures |put| == |routes|
  {
    if routes == [] then []
    else if routes[0].id == route.id then [route] + routes[1..]
    else [routes[0]] + PutRoute(routes[1..], route)
  }

  function Total(rings: seq<Scope>): nat {
    if rings == [] then 0 else |rings[0].routes| + Total(rings[1..])
  }

  /** The first route of the first scope that has one. */
  function Evict(rings: seq<Scope>): seq<Scope> {
    if rings == [] then []
    else if rings[0].routes == [] then [rings[0]] + Evict(rings[1..])
    else if |rings[0].routes| == 1 then rings[1..]
    else [Scope(rings[0].name, rings[0].routes[1..])] + rings[1..]
  }

  function Pushed(limits: Limits, route: Route, event: Event): Route {
    route.(events := Last(route.events + [event], limits.maxEvents), log := route.log + [event])
  }

  function Record(limits: Limits, s: State, scope: string, id: string, event: Event): State {
    var rings := EnsureScope(s.rings, scope);
    var routes := RoutesOf(rings, scope);
    match RouteIn(routes, id)
    case Some(route) => s.(rings := PutScope(rings, scope, PutRoute(routes, Pushed(limits, route, event))),
                              clock := s.clock + 1)
    case None =>
      var full := s.routeCount >= limits.maxRoutes;
      var room := EnsureScope(if full then Evict(rings) else rings, scope);
      var count := if full && Total(rings) > 0 then s.routeCount - 1 else s.routeCount;
      var route := Pushed(limits, Route(id, [], [], s.clock), event);
      State(PutScope(room, scope, RoutesOf(room, scope) + [route]), count + 1, s.clock + 1)
  }

  // ------------------------------------------------------------ what every record keeps

  ghost predicate RoutesOk(limits: Limits, routes: seq<Route>, clock: nat) {
    && (forall i, j :: 0 <= i < j < |routes| ==> routes[i].id != routes[j].id && routes[i].born < routes[j].born)
    && (forall i :: 0 <= i < |routes| ==> RouteOk(limits, routes[i], clock))
  }

  /** The ring holds the last events since the route was last inserted. */
  ghost predicate RouteOk(limits: Limits, route: Route, clock: nat) {
    route.events == Last(route.log, limits.maxEvents) && route.log != [] && route.born < clock
  }

  /** No scope twice, and every scope's routes in order. */
  ghost predicate RingsOk(limits: Limits, rings: seq<Scope>, clock: nat) {
    rings == [] || (&& RoutesOk(limits, rings[0].routes, clock)
                    && !HasScope(rings[1..], rings[0].name)
                    && RingsOk(limits, rings[1..], clock))
  }

  /** Only the scope just made may be empty. */
  ghost predicate NoEmptyBut(rings: seq<Scope>, name: string) {
    rings == [] || ((rings[0].name == name || rings[0].routes != []) && NoEmptyBut(rings[1..], name))
  }

  ghost predicate NoEmpty(rings: seq<Scope>) {
    rings == [] || (rings[0].routes != [] && NoEmpty(rings[1..]))
  }

  ghost predicate Ok(limits: Limits, s: State) {
    && RingsOk(limits, s.rings, s.clock) && NoEmpty(s.rings)
    && s.routeCount == Total(s.rings)
    && s.routeCount <= if limits.maxRoutes > 0 then limits.maxRoutes else 1
  }

  lemma {:induction false} RoutesOfScope(limits: Limits, rings: seq<Scope>, name: string, clock: nat)
    requires RingsOk(limits, rings, clock)
    ensures RoutesOk(limits, RoutesOf(rings, name), clock)
  {
    if rings != [] { RoutesOfScope(limits, rings[1..], name, clock); }
  }

  lemma {:induction false} AppendKeeps(limits: Limits, rings: seq<Scope>, name: string, clock: nat)
    requires RingsOk(limits, rings, clock) && NoEmptyBut(rings, name) && !HasScope(rings, name)
    ensures var more := rings + [Scope(name, [])];
            && RingsOk(limits, more, clock) && NoEmptyBut(more, name) && HasScope(more, name)
              && Total(more) == Total(rings)
    ensures forall n :: n != name && !HasScope(rings, n) ==> !HasScope(rings + [Scope(name, [])], n)
  {
    var last := Scope(name, []);
    if rings == [] {
      assert rings + [last] == [last] && [last][1..] == [];
    } else {
      AppendKeeps(limits, rings[1..], name, clock);
      assert (rings + [last])[1..] == rings[1..] + [last] && (rings + [last])[0] == rings[0];
    }
  }

  lemma EnsureKeeps(limits: Limits, rings: seq<Scope>, name: string, clock: nat)
    requires RingsOk(limits, rings, clock) && NoEmptyBut(rings, name)
    ensures var ensured := EnsureScope(rings, name);
            RingsOk(limits, ensured, clock) && NoEmptyBut(ensured, name) && HasScope(ensured, name)
            && Total(ensured) == Total(rings)
  {
    hide RingsOk, NoEmptyBut, HasScope, Total;
    if !HasScope(rings, name) { AppendKeeps(limits, rings, name, clock); }
  }

  lemma {:induction false} PutKeepsNames(rings: seq<Scope>, name: string, routes: seq<Route>, n: string)
    ensures HasScope(PutScope(rings, name, routes), n) == HasScope(rings, n)
  {
    if rings != [] { PutKeepsNames(rings[1..], name, routes, n); }
  }

  lemma {:induction false} NamedNoEmpty(rings: seq<Scope>, name: string)
    requires NoEmptyBut(rings, name) && !HasScope(rings, name)
    ensures NoEmpty(rings)
  {
    if rings != [] { NamedNoEmpty(rings[1..], name); }
  }

  lemma {:induction false} PutKeeps(limits: Limits, rings: seq<Scope>, name: string, routes: seq<Route>, clock: nat)
    requires RingsOk(limits, rings, clock) && NoEmptyBut(rings, name) && HasScope(rings, name)
    requires RoutesOk(limits, routes, clock) && routes != []
    ensures var put := PutScope(rings, name, routes);
            && RingsOk(limits, put, clock) && NoEmpty(put)
            && Total(put) == Total(rings) - |RoutesOf(rings, name)| + |routes|
  {
    hide RoutesOk;
    var rest := rings[1..];
    if rings[0].name == name {
      NamedNoEmpty(rest, name);
      assert ([Scope(name, routes)] + rest)[1..] == rest;
    } else {
      PutKeeps(limits, rest, name, routes, clock);
      PutKeepsNames(rest, name, routes, rings[0].name);
      assert ([rings[0]] + PutScope(rest, name, routes))[1..] == PutScope(rest, name, routes);
    }
  }

  lemma {:induction false} EvictAddsNoName(rings: seq<Scope>, n: string)
    requires !HasScope(rings, n)
    ensures !HasScope(Evict(rings), n)
  {
    if rings != [] && rings[0].routes == [] { EvictAddsNoName(rings[1..], n); }
  }

  lemma {:induction false} EvictKeeps(limits: Limits, rings: seq<Scope>, name: string, clock: nat)
    requires RingsOk(limits, rings, clock) && NoEmptyBut(rings, name)
    ensures var left := Evict(rings);
            && RingsOk(limits, left, clock) && NoEmptyBut(left, name)
            && Total(left) == (if Total(rings) > 0 then Total(rings) - 1 else 0)
  {
    if rings == [] { return; }
    var rest := rings[1..];
    if rings[0].routes == [] {
      EvictKeeps(limits, rest, name, clock);
      EvictAddsNoName(rest, rings[0].name);
      assert ([rings[0]] + Evict(rest))[1..] == Evict(rest);
    } else if |rings[0].routes| > 1 {
      TailOk(limits, rings[0].routes, clock);
      assert ([Scope(rings[0].name, rings[0].routes[1..])] + rest)[1..] == rest;
    }
  }

  lemma TailOk(limits: Limits, routes: seq<Route>, clock: nat)
    requires RoutesOk(limits, routes, clock) && routes != []
    ensures RoutesOk(limits, routes[1..], clock)
  {
  }

  // ------------------------------------------------------------ recording

  lemma LastAbsorbs(log: seq<Event>, event: Event, n: nat)
    ensures Last(Last(log, n) + [event], n) == Last(log + [event], n)
  {
  }

  lemma RouteMembers(routes: seq<Route>, id: string)
    ensures RouteIn(routes, id).Some? ==>
              exists i :: 0 <= i < |routes| && routes[i] == RouteIn(routes, id).value && routes[i].id == id
    ensures RouteIn(routes, id).None? ==> forall i :: 0 <= i < |routes| ==> routes[i].id != id
  {
    if routes != [] {
      RouteMembers(routes[1..], id);
      var rest := RouteIn(routes[1..], id);
      if routes[0].id != id && rest.Some? {
        var i :| 0 <= i < |routes[1..]| && routes[1..][i] == rest.value && routes[1..][i].id == id;
        assert routes[i + 1] == rest.value;
      }
    }
  }

  lemma {:induction false} PutRouteAt(routes: seq<Route>, route: Route, x: string)
    ensures RouteIn(PutRoute(routes, route), x)
            == if x == route.id && RouteIn(routes, x).Some? then Some(route) else RouteIn(routes, x)
    ensures forall i :: 0 <= i < |routes| ==>
              PutRoute(routes, route)[i] == routes[i] || (routes[i].id == route.id
                  && PutRoute(routes, route)[i] == route)
  {
    if routes != [] && routes[0].id != route.id {
      PutRouteAt(routes[1..], route, x);
      assert ([routes[0]] + PutRoute(routes[1..], route))[1..] == PutRoute(routes[1..], route);
    } else if routes != [] {
      assert ([route] + routes[1..])[1..] == routes[1..];
    }
  }

  lemma PutRouteKeeps(limits: Limits, routes: seq<Route>, route: Route, old_: Route, clock: nat)
    requires RoutesOk(limits, routes, clock) && RouteIn(routes, route.id) == Some(old_)
    requires RouteOk(limits, route, clock) && route.born == old_.born
    ensures RoutesOk(limits, PutRoute(routes, route), clock)
  {
    PutRouteAt(routes, route, route.id);
    RouteMembers(routes, route.id);
    var put := PutRoute(routes, route);
    hide RouteOk, PutRoute, RouteIn;
    var k :| 0 <= k < |routes| && routes[k] == old_ && routes[k].id == route.id;
    assert forall i :: 0 <= i < |routes| ==> put[i].id == routes[i].id && put[i].born == routes[i].born;
  }

  lemma ClockMoves(limits: Limits, routes: seq<Route>, clock: nat)
    requires RoutesOk(limits, routes, clock)
    ensures RoutesOk(limits, routes, clock + 1)
  {
  }

  lemma {:induction false} RingsClockMoves(limits: Limits, rings: seq<Scope>, clock: nat)
    requires RingsOk(limits, rings, clock)
    ensures RingsOk(limits, rings, clock + 1)
  {
    if rings != [] {
      ClockMoves(limits, rings[0].routes, clock);
      hide RoutesOk;
      RingsClockMoves(limits, rings[1..], clock);
    }
  }

  lemma NewRouteOk(limits: Limits, routes: seq<Route>, route: Route, clock: nat)
    requires RoutesOk(limits, routes, clock) && RouteIn(routes, route.id).None? && RouteOk(limits, route, clock + 1)
             && route.born == clock
    ensures RoutesOk(limits, routes + [route], clock + 1)
  {
    RouteMembers(routes, route.id);
    hide RouteIn;
    var more := routes + [route];
    assert forall i :: 0 <= i < |routes| ==> more[i] == routes[i];
  }

  lemma {:induction false} RoutesOfAppended(rings: seq<Scope>, name: string, n: string)
    ensures !HasScope(rings, name) ==> RoutesOf(rings + [Scope(name, [])], n) == RoutesOf(rings, n)
    ensures !HasScope(rings, n) ==> RoutesOf(rings, n) == []
  {
    var last := Scope(name, []);
    if rings == [] {
      assert rings + [last] == [last] && [last][1..] == [];
    } else {
      RoutesOfAppended(rings[1..], name, n);
      assert (rings + [last])[1..] == rings[1..] + [last] && (rings + [last])[0] == rings[0];
    }
  }

  lemma {:induction false} RoutesOfPut(rings: seq<Scope>, name: string, routes: seq<Route>, n: string)
    ensures RoutesOf(PutScope(rings, name, routes), n)
            == if n == name && HasScope(rings, name) then routes else RoutesOf(rings, n)
  {
    if rings != [] && rings[0].name != name {
      RoutesOfPut(rings[1..], name, routes, n);
      assert ([rings[0]] + PutScope(rings[1..], name, routes))[1..] == PutScope(rings[1..], name, routes);
    } else if rings != [] {
      assert ([Scope(name, routes)] + rings[1..])[1..] == rings[1..];
    }
  }

  /** The route eviction takes: the first of the first scope that has one. */
  function Victim(rings: seq<Scope>): Option<(string, Route)> {
    if rings == [] then None
    else if rings[0].routes == [] then Victim(rings[1..])
    else Some((rings[0].name, rings[0].routes[0]))
  }

  lemma {:induction false} EvictTakesOne(limits: Limits, rings: seq<Scope>, clock: nat, name: string, id: string)
    requires RingsOk(limits, rings, clock)
    ensures Lookup(Evict(rings), name, id)
            == if Victim(rings).Some? && Victim(rings).value.0 == name && Victim(rings).value.1.id == id then None
               else Lookup(rings, name, id)
  {
    if rings == [] { return; }
    var rest := rings[1..];
    RoutesOfAppended(rest, name, rings[0].name);
    if rings[0].routes == [] {
      EvictTakesOne(limits, rest, clock, name, id);
      EvictAddsNoName(rest, rings[0].name);
      assert ([rings[0]] + Evict(rest))[1..] == Evict(rest);
      VictimIsNamed(rest, rings[0].name);
    } else {
      FirstIdOnce(limits, rings[0].routes, clock);
      if |rings[0].routes| > 1 {
        assert ([Scope(rings[0].name, rings[0].routes[1..])] + rest)[1..] == rest;
      } else {
        assert rings[0].routes[1..] == [];
      }
    }
  }

  lemma {:induction false} VictimIsNamed(rings: seq<Scope>, name: string)
    requires !HasScope(rings, name)
    ensures Victim(rings).Some? ==> Victim(rings).value.0 != name
  {
    if rings != [] { VictimIsNamed(rings[1..], name); }
  }

  lemma FirstIdOnce(limits: Limits, routes: seq<Route>, clock: nat)
    requires RoutesOk(limits, routes, clock) && routes != []
    ensures RouteIn(routes[1..], routes[0].id).None?
  {
    RouteMembers(routes[1..], routes[0].id);
  }

  lemma EnsureLookup(rings: seq<Scope>, name: string, n: string)
    ensures RoutesOf(EnsureScope(rings, name), n) == RoutesOf(rings, n)
  {
    RoutesOfAppended(rings, name, n);
  }

  lemma {:induction false} NoEmptyIsWeaker(rings: seq<Scope>, name: string)
    requires NoEmpty(rings)
    ensures NoEmptyBut(rings, name)
  {
    if rings != [] { NoEmptyIsWeaker(rings[1..], name); }
  }

  lemma {:induction false} LookedUpIsCounted(rings: seq<Scope>, name: string)
    ensures |RoutesOf(rings, name)| <= Total(rings)
  {
    if rings != [] { LookedUpIsCounted(rings[1..], name); }
  }

  /** A record for a route that is there. */
  lemma KnownRouteKeeps(limits: Limits, s: State, scope: string, id: string, event: Event)
    requires Ok(limits, s) && Lookup(s.rings, scope, id).Some?
    ensures Ok(limits, Record(limits, s, scope, id, event))
  {
    var rings := EnsureScope(s.rings, scope);
    NoEmptyIsWeaker(s.rings, scope);
    EnsureKeeps(limits, s.rings, scope, s.clock);
    EnsureLookup(s.rings, scope, scope);
    var routes := RoutesOf(rings, scope);
    RoutesOfScope(limits, rings, scope, s.clock);
    var route := RouteIn(routes, id).value;
    RouteMembers(routes, id);
    assert RouteOk(limits, route, s.clock);
    LastAbsorbs(route.log, event, limits.maxEvents);
    PutRouteKeeps(limits, routes, Pushed(limits, route, event), route, s.clock);
    var put := PutRoute(routes, Pushed(limits, route, event));
    hide *;
    PutKeeps(limits, rings, scope, put, s.clock);
    RingsClockMoves(limits, PutScope(rings, scope, put), s.clock);
  }

  /** The outer map a new route is put into. */
  function Room(limits: Limits, s: State, scope: string): seq<Scope> {
    var rings := EnsureScope(s.rings, scope);
    EnsureScope(if s.routeCount >= limits.maxRoutes then Evict(rings) else rings, scope)
  }

  lemma RoomKeeps(limits: Limits, s: State, scope: string, id: string)
    requires Ok(limits, s) && Lookup(s.rings, scope, id).None?
    ensures var room := Room(limits, s, scope);
            && RingsOk(limits, room, s.clock) && NoEmptyBut(room, scope) && HasScope(room, scope)
            && Total(room) ==
               (if s.routeCount >= limits.maxRoutes && s.routeCount > 0 then s.routeCount - 1 else s.routeCount)
            && RouteIn(RoutesOf(room, scope), id).None?
  {
    var rings := EnsureScope(s.rings, scope);
    NoEmptyIsWeaker(s.rings, scope);
    hide RingsOk, NoEmptyBut, NoEmpty, Evict, RoutesOf, RouteIn, EnsureScope;
    EnsureKeeps(limits, s.rings, scope, s.clock);
    EnsureLookup(s.rings, scope, scope);
    EvictKeeps(limits, rings, scope, s.clock);
    EvictTakesOne(limits, rings, s.clock, scope, id);
    var left := if s.routeCount >= limits.maxRoutes then Evict(rings) else rings;
    EnsureKeeps(limits, left, scope, s.clock);
    EnsureLookup(left, scope, scope);
  }

  function NewRoute(limits: Limits, s: State, id: string, event: Event): Route {
    Pushed(limits, Route(id, [], [], s.clock), event)
  }

  lemma RecordOfNew(limits: Limits, s: State, scope: string, id: string, event: Event)
    requires Ok(limits, s) && Lookup(s.rings, scope, id).None?
    ensures var room := Room(limits, s, scope);
            Record(limits, s, scope, id, event)
            == State(PutScope(room, scope, RoutesOf(room, scope) + [NewRoute(limits, s, id, event)]),
                     if s.routeCount >= limits.maxRoutes && s.routeCount > 0 then s.routeCount
                       else s.routeCount + 1, s.clock + 1)
  {
    EnsureLookup(s.rings, scope, scope);
    NoEmptyIsWeaker(s.rings, scope);
    EnsureKeeps(limits, s.rings, scope, s.clock);
    hide EnsureScope, RoutesOf, Evict, PutScope, RingsOk, NoEmpty;
  }

  lemma NewRouteKeeps(limits: Limits, s: State, scope: string, id: string, event: Event)
    requires Ok(limits, s) && Lookup(s.rings, scope, id).None?
    ensures Ok(limits, Record(limits, s, scope, id, event))
  {
    var room := Room(limits, s, scope);
    var route := NewRoute(limits, s, id, event);
    RecordOfNew(limits, s, scope, id, event);
    RoomKeeps(limits, s, scope, id);
    assert RouteOk(limits, route, s.clock + 1);
    BooksBalance(limits, s, room, scope, route);
    hide Record, Room, RingsOk, NoEmpty, NewRoute, Lookup;
    assert Ok(limits, Record(limits, s, scope, id, event));
  }

  lemma BooksBalance(limits: Limits, s: State, room: seq<Scope>, scope: string, route: Route)
    requires RingsOk(limits, room, s.clock) && NoEmptyBut(room, scope) && HasScope(room, scope)
    requires RouteIn(RoutesOf(room, scope), route.id).None? && RouteOk(limits, route, s.clock + 1)
             && route.born == s.clock
    ensures var put := PutScope(room, scope, RoutesOf(room, scope) + [route]);
            RingsOk(limits, put, s.clock + 1) && NoEmpty(put) && Total(put) == Total(room) + 1
  {
    hide *;
    var routes := RoutesOf(room, scope);
    RoutesOfScope(limits, room, scope, s.clock);
    NewRouteOk(limits, routes, route, s.clock);
    RingsClockMoves(limits, room, s.clock);
    PutKeeps(limits, room, scope, routes + [route], s.clock + 1);
  }

  lemma RecordKeeps(limits: Limits, s: State, scope: string, id: string, event: Event)
    requires Ok(limits, s)
    ensures Ok(limits, Record(limits, s, scope, id, event))
  {
    hide *;
    if Lookup(s.rings, scope, id).Some? {
      KnownRouteKeeps(limits, s, scope, id, event);
    } else {
      NewRouteKeeps(limits, s, scope, id, event);
    }
  }

  datatype Call = Call(scope: string, id: string, event: Event)

  function Run(limits: Limits, s: State, calls: seq<Call>): State
    decreases |calls|
  {
    if calls == [] then s else Run(limits, Record(limits, s, calls[0].scope, calls[0].id, calls[0].event), calls[1..])
  }

  const EMPTY := State([], 0, 0)

  lemma {:induction false} RunKeepsOk(limits: Limits, s: State, calls: seq<Call>)
    requires Ok(limits, s)
    ensures Ok(limits, Run(limits, s, calls))
    decreases |calls|
  {
    if calls == [] { return; }
    hide *;
    RecordKeeps(limits, s, calls[0].scope, calls[0].id, calls[0].event);
    RunKeepsOk(limits, Record(limits, s, calls[0].scope, calls[0].id, calls[0].event), calls[1..]);
    assert Run(limits, s, calls) == Run(limits, Record(limits, s, calls[0].scope, calls[0].id, calls[0].event),
        calls[1..]) by {
      RunUnfolds(limits, s, calls);
    }
  }

  lemma RunUnfolds(limits: Limits, s: State, calls: seq<Call>)
    requires calls != []
    ensures Run(limits, s, calls) == Run(limits, Record(limits, s, calls[0].scope, calls[0].id, calls[0].event),
            calls[1..])
  {
    hide Record;
  }

  /** Over every run the counter is the number of tracked routes, no scope map is empty, and
      every ring holds the last events since its route was last inserted. */
  lemma RunsKeepTheBooks(limits: Limits, calls: seq<Call>, scope: string, id: string)
    ensures var s := Run(limits, EMPTY, calls);
            && s.routeCount == Total(s.rings) && NoEmpty(s.rings)
            && (Lookup(s.rings, scope, id).Some? ==> var r := Lookup(s.rings, scope, id).value;
                                                     r.log != [] && r.events == Last(r.log, limits.maxEvents))
  {
    RunKeepsOk(limits, EMPTY, calls);
    var s := Run(limits, EMPTY, calls);
    RoutesOfScope(limits, s.rings, scope, s.clock);
    RouteMembers(RoutesOf(s.rings, scope), id);
    hide Run, RoutesOf, RouteIn;
    assert forall r :: RouteOk(limits, r, s.clock) ==> r.log != [] && r.events == Last(r.log, limits.maxEvents);
  }

  /** The route limit holds over every run exactly when it is at least one: a store that may
      hold none still keeps the latest route. */
  lemma LimitHoldsIff(limits: Limits)
    ensures (forall calls :: Run(limits, EMPTY, calls).routeCount <= limits.maxRoutes) <==> limits.maxRoutes >= 1
  {
    if limits.maxRoutes >= 1 {
      forall calls
        ensures Run(limits, EMPTY, calls).routeCount <= limits.maxRoutes
      {
        RunKeepsOk(limits, EMPTY, calls);
      }
    } else {
      var call := Call("account", "r", 0);
      var s := Record(limits, EMPTY, "account", "r", 0);
      hide Lookup;
      assert s.routeCount == 1;
      assert [call][1..] == [];
      assert Run(limits, s, []) == s;
      assert Run(limits, EMPTY, [call]) == s;
    }
  }

  // ------------------------------------------------------------ what a record does

  /** A recorded event is the latest of its route, on top of the events since the route was
      last inserted. */
  lemma RecordAppends(limits: Limits, s: State, scope: string, id: string, event: Event)
    requires Ok(limits, s)
    ensures var before, after := Lookup(s.rings, scope, id),
            Lookup(Record(limits, s, scope, id, event).rings, scope, id);
            && after.Some?
            && after.value.log == (if before.Some? then before.value.log else []) + [event]
            && after.value.born == (if before.Some? then before.value.born else s.clock)
  {
    NoEmptyIsWeaker(s.rings, scope);
    EnsureKeeps(limits, s.rings, scope, s.clock);
    EnsureLookup(s.rings, scope, scope);
    var rings := EnsureScope(s.rings, scope);
    var routes := RoutesOf(rings, scope);
    if Lookup(s.rings, scope, id).Some? {
      var route := RouteIn(routes, id).value;
      RouteMembers(routes, id);
      var pushed := Pushed(limits, route, event);
      RoutesOfPut(rings, scope, PutRoute(routes, pushed), scope);
      PutRouteAt(routes, pushed, id);
    } else {
      RoomKeeps(limits, s, scope, id);
      var room := Room(limits, s, scope);
      var route := NewRoute(limits, s, id, event);
      RoutesOfPut(room, scope, RoutesOf(room, scope) + [route], scope);
      AppendedIsFound(RoutesOf(room, scope), route, id);
    }
  }

  lemma {:induction false} AppendedIsFound(routes: seq<Route>, route: Route, x: string)
    ensures RouteIn(routes + [route], x)
            == if RouteIn(routes, x).Some? then RouteIn(routes, x) else if route.id == x then Some(route) else None
  {
    if routes == [] {
      assert routes + [route] == [route] && [route][1..] == [];
    } else {
      AppendedIsFound(routes[1..], route, x);
      assert (routes + [route])[1..] == routes[1..] + [route] && (routes + [route])[0] == routes[0];
    }
  }

  /** Every other route is left as it was, except the one that makes way for a new route in a
      full store: the first route of the first scope. */
  lemma OthersAreUntouched(limits: Limits, s: State, scope: string, id: string, event: Event, name: string, x: string)
    requires Ok(limits, s) && (name != scope || x != id)
    ensures var makesWay := Lookup(s.rings, scope, id).None? && s.routeCount >= limits.maxRoutes && s.rings != []
                            && s.rings[0].name == name && s.rings[0].routes[0].id == x;
            Lookup(Record(limits, s, scope, id, event).rings, name, x) == if makesWay then None
                else Lookup(s.rings, name, x)
  {
    NoEmptyIsWeaker(s.rings, scope);
    EnsureKeeps(limits, s.rings, scope, s.clock);
    EnsureLookup(s.rings, scope, scope);
    EnsureLookup(s.rings, scope, name);
    var rings := EnsureScope(s.rings, scope);
    if Lookup(s.rings, scope, id).Some? {
      var routes := RoutesOf(rings, scope);
      RouteMembers(routes, id);
      var pushed := Pushed(limits, RouteIn(routes, id).value, event);
      RoutesOfPut(rings, scope, PutRoute(routes, pushed), name);
      PutRouteAt(routes, pushed, x);
    } else {
      RoomKeeps(limits, s, scope, id);
      var room := Room(limits, s, scope);
      var route := NewRoute(limits, s, id, event);
      RoutesOfPut(room, scope, RoutesOf(room, scope) + [route], name);
      AppendedIsFound(RoutesOf(room, scope), route, x);
      EvictTakesOne(limits, rings, s.clock, name, x);
      EnsureLookup(if s.routeCount >= limits.maxRoutes then Evict(rings) else rings, scope, name);
      VictimIsFirst(s.rings, scope);
    }
  }

  lemma VictimIsFirst(rings: seq<Scope>, scope: string)
    requires NoEmpty(rings)
    ensures Victim(EnsureScope(rings, scope)) == if rings == [] then None else Some((rings[0].name, rings[0].routes[0]))
  {
    if rings == [] && !HasScope(rings, scope) {
      assert EnsureScope(rings, scope) == [Scope(scope, [])];
      assert [Scope(scope, [])][1..] == [];
    }
  }

  ghost predicate Tracked(rings: seq<Scope>, route: Route) {
    exists i, j :: 0 <= i < |rings| && 0 <= j < |rings[i].routes| && rings[i].routes[j] == route
  }

  /** `x` of scope `name` was in the store and no longer is. */
  ghost predicate MakesWay(s: State, t: State, name: string, x: string) {
    Lookup(s.rings, name, x).Some? && Lookup(t.rings, name, x).None?
  }

  lemma FirstIsLookedUp(limits: Limits, s: State)
    requires Ok(limits, s) && s.rings != []
    ensures s.rings[0].routes != []
            && Lookup(s.rings, s.rings[0].name, s.rings[0].routes[0].id) == Some(s.rings[0].routes[0])
  {
  }

  /** Recording a new route in a full store removes one other route, the first of the first
      scope. It is the oldest of all exactly when no other scope has an older first route:
      with several scopes, insertion order across them is not kept. */
  lemma OldestMakesWayIff(limits: Limits, s: State, scope: string, id: string, event: Event)
    requires Ok(limits, s) && s.rings != []
    requires Lookup(s.rings, scope, id).None? && s.routeCount >= limits.maxRoutes
    ensures ScopeRoutesOk(limits, s)
    ensures var first := s.rings[0].routes[0];
            && (forall name, x :: name != scope || x != id ==>
                  (MakesWay(s, Record(limits, s, scope, id, event), name, x) <==>
                     name == s.rings[0].name && x == first.id))
            && ((forall r :: Tracked(s.rings, r) ==> first.born <= r.born)
                <==> forall i :: 0 <= i < |s.rings| ==> first.born <= s.rings[i].routes[0].born)
  {
    FirstIsLookedUp(limits, s);
    var t := Record(limits, s, scope, id, event);
    forall name, x | name != scope || x != id
      ensures MakesWay(s, t, name, x) <==> name == s.rings[0].name && x == s.rings[0].routes[0].id
    {
      OthersAreUntouched(limits, s, scope, id, event, name, x);
      hide Record, Lookup, Ok;
    }
    hide Record, Lookup, MakesWay;
    OldestIff(limits, s);
  }

  lemma OldestIff(limits: Limits, s: State)
    requires Ok(limits, s) && s.rings != []
    ensures ScopeRoutesOk(limits, s)
    ensures var first := s.rings[0].routes[0];
            (forall r :: Tracked(s.rings, r) ==> first.born <= r.born)
            <==> forall i :: 0 <= i < |s.rings| ==> first.born <= s.rings[i].routes[0].born
  {
    ScopesOk(limits, s.rings, s.clock);
    var first := s.rings[0].routes[0];
    if forall r :: Tracked(s.rings, r) ==> first.born <= r.born {
      forall i | 0 <= i < |s.rings|
        ensures first.born <= s.rings[i].routes[0].born
      {
        assert Tracked(s.rings, s.rings[i].routes[0]);
      }
    }
  }

  /** Every scope has a route, and they are in order of insertion. */
  ghost predicate ScopeRoutesOk(limits: Limits, s: State) {
    forall i :: 0 <= i < |s.rings| ==> s.rings[i].routes != [] && RoutesOk(limits, s.rings[i].routes, s.clock)
  }

  lemma {:induction false} ScopesOk(limits: Limits, rings: seq<Scope>, clock: nat)
    requires RingsOk(limits, rings, clock) && NoEmpty(rings)
    ensures forall i :: 0 <= i < |rings| ==> rings[i].routes != [] && RoutesOk(limits, rings[i].routes, clock)
  {
    if rings != [] {
      hide RoutesOk;
      ScopesOk(limits, rings[1..], clock);
      assert forall i :: 0 < i < |rings| ==> rings[i] == rings[1..][i - 1];
    }
  }

  function Solo(id: string, born: nat): Route {
    Route(id, [0], [0], born)
  }

  lemma SoloIsPushed(limits: Limits, id: string, born: nat)
    requires limits.maxEvents > 0
    ensures Pushed(limits, Route(id, [], [], born), 0) == Solo(id, born)
  {
    var pushed := Pushed(limits, Route(id, [], [], born), 0);
    assert pushed.events == [0] && pushed.log == [0];
  }

  /** Such a run, in a store for three routes: the fifth record forgets route `z` of the
      first scope and keeps the older `y` of the second. */
  lemma YoungerMakesWay(a: string, b: string, ids: seq<string>)
    requires a != b && |ids| == 5 && forall i, j :: 0 <= i < j < 5 ==> ids[i] != ids[j]
    ensures var limits := Limits(3, 8);
            var s := Run(limits, EMPTY, [Call(a, ids[0], 0), Call(b, ids[1], 0), Call(a, ids[2], 0),
                Call(a, ids[3], 0)]);
            var t := Record(limits, s, a, ids[4], 0);
            var z, y := Lookup(s.rings, a, ids[2]), Lookup(s.rings, b, ids[1]);
            && z.Some? && y.Some? && y.value.born < z.value.born
            && Lookup(t.rings, a, ids[2]).None? && Lookup(t.rings, b, ids[1]) == y
  {
    var limits := Limits(3, 8);
    var y, z, w := Solo(ids[1], 1), Solo(ids[2], 2), Solo(ids[3], 3);
    var s := State([Scope(a, [z, w]), Scope(b, [y])], 3, 4);
    var calls := [Call(a, ids[0], 0), Call(b, ids[1], 0), Call(a, ids[2], 0), Call(a, ids[3], 0)];
    FourRecords(a, b, ids);
    RunKeepsOk(limits, EMPTY, calls);
    TwoScopes(a, b, [z, w], [y], []);
    assert [z, w][1..] == [w] && [w][1..] == [];
    assert RouteIn([w], ids[4]) == None;
    assert Lookup(s.rings, a, ids[2]) == Some(z) && Lookup(s.rings, b, ids[1]) == Some(y)
        && Lookup(s.rings, a, ids[4]) == None;
    hide Record, Run, Lookup, Ok, Evict;
    OthersAreUntouched(limits, s, a, ids[4], 0, a, ids[2]);
    OthersAreUntouched(limits, s, a, ids[4], 0, b, ids[1]);
  }

  lemma FourRecords(a: string, b: string, ids: seq<string>)
    requires a != b && |ids| == 5 && forall i, j :: 0 <= i < j < 5 ==> ids[i] != ids[j]
    ensures Run(Limits(3, 8), EMPTY, [Call(a, ids[0], 0), Call(b, ids[1], 0), Call(a, ids[2], 0), Call(a, ids[3], 0)])
            == State([Scope(a, [Solo(ids[2], 2), Solo(ids[3], 3)]), Scope(b, [Solo(ids[1], 1)])], 3, 4)
  {
    var limits := Limits(3, 8);
    var x, y, z, w := Solo(ids[0], 0), Solo(ids[1], 1), Solo(ids[2], 2), Solo(ids[3], 3);
    var s1 := State([Scope(a, [x])], 1, 1);
    var s2 := State([Scope(a, [x]), Scope(b, [y])], 2, 2);
    var s3 := State([Scope(a, [x, z]), Scope(b, [y])], 3, 3);
    var s4 := State([Scope(a, [z, w]), Scope(b, [y])], 3, 4);
    var c0, c1, c2, c3 := Call(a, ids[0], 0), Call(b, ids[1], 0), Call(a, ids[2], 0), Call(a, ids[3], 0);
    hide Record, Run;
    First(limits, a, ids[0]);
    Second(limits, a, b, x, ids[1]);
    Third(limits, a, b, x, y, ids[2]);
    Fourth(limits, a, b, x, y, z, ids[3]);
    RunOf(limits, EMPTY, c0, [c1, c2, c3]);
    RunOf(limits, s1, c1, [c2, c3]);
    RunOf(limits, s2, c2, [c3]);
    RunOf(limits, s3, c3, []);
    assert [c0] + [c1, c2, c3] == [c0, c1, c2, c3] && [c1] + [c2, c3] == [c1, c2, c3] && [c2] + [c3] == [c2, c3]
        && [c3] + [] == [c3];
    NoCalls(limits, s4);
  }

  lemma NoCalls(limits: Limits, s: State)
    ensures Run(limits, s, []) == s
  {
  }

  lemma RunOf(limits: Limits, s: State, call: Call, calls: seq<Call>)
    ensures Run(limits, s, [call] + calls) == Run(limits, Record(limits, s, call.scope, call.id, call.event), calls)
  {
    assert ([call] + calls)[1..] == calls;
    hide Record;
  }

  lemma TwoScopes(a: string, b: string, first: seq<Route>, second: seq<Route>, put: seq<Route>)
    requires a != b
    ensures var rings := [Scope(a, first), Scope(b, second)];
            && RoutesOf(rings, a) == first && RoutesOf(rings, b) == second && HasScope(rings, a) && HasScope(rings, b)
            && PutScope(rings, a, put) == [Scope(a, put), Scope(b, second)]
            && PutScope(rings, b, put) == [Scope(a, first), Scope(b, put)]
  {
    var rings, tail := [Scope(a, first), Scope(b, second)], [Scope(b, second)];
    assert rings[1..] == tail && tail[1..] == [];
    assert PutScope(tail, b, put) == [Scope(b, put)];
    assert RoutesOf(tail, b) == second && HasScope(tail, b);
  }

  lemma First(limits: Limits, a: string, id: string)
    requires limits == Limits(3, 8)
    ensures Record(limits, EMPTY, a, id, 0) == State([Scope(a, [Solo(id, 0)])], 1, 1)
  {
    SoloIsPushed(limits, id, 0);
    var rings := [Scope(a, [])];
    assert EnsureScope([], a) == rings && EnsureScope(rings, a) == rings && rings[1..] == [];
    var t := Record(limits, EMPTY, a, id, 0);
    assert t.rings[0].routes == [Solo(id, 0)];
    assert t.rings == [Scope(a, [Solo(id, 0)])];
  }

  lemma Second(limits: Limits, a: string, b: string, x: Route, id: string)
    requires limits == Limits(3, 8) && a != b
    ensures Record(limits, State([Scope(a, [x])], 1, 1), b, id, 0)
            == State([Scope(a, [x]), Scope(b, [Solo(id, 1)])], 2, 2)
  {
    SoloIsPushed(limits, id, 1);
    TwoScopes(a, b, [x], [], [] + [Solo(id, 1)]);
    var one, rings := [Scope(a, [x])], [Scope(a, [x]), Scope(b, [])];
    assert one[1..] == [] && !HasScope([], b) && !HasScope(one, b);
    assert EnsureScope(one, b) == rings && EnsureScope(rings, b) == rings;
    assert [] + [Solo(id, 1)] == [Solo(id, 1)];
  }

  lemma Third(limits: Limits, a: string, b: string, x: Route, y: Route, id: string)
    requires limits == Limits(3, 8) && a != b && x.id != id
    ensures Record(limits, State([Scope(a, [x]), Scope(b, [y])], 2, 2), a, id, 0)
            == State([Scope(a, [x, Solo(id, 2)]), Scope(b, [y])], 3, 3)
  {
    SoloIsPushed(limits, id, 2);
    TwoScopes(a, b, [x], [y], [x] + [Solo(id, 2)]);
    assert [x][1..] == [] && RouteIn([x], id) == None;
    assert [x] + [Solo(id, 2)] == [x, Solo(id, 2)];
  }

  lemma Fourth(limits: Limits, a: string, b: string, x: Route, y: Route, z: Route, id: string)
    requires limits == Limits(3, 8) && a != b && x.id != id && z.id != id
    ensures Record(limits, State([Scope(a, [x, z]), Scope(b, [y])], 3, 3), a, id, 0)
            == State([Scope(a, [z, Solo(id, 3)]), Scope(b, [y])], 3, 4)
  {
    SoloIsPushed(limits, id, 3);
    TwoScopes(a, b, [x, z], [y], []);
    TwoScopes(a, b, [z], [y], [z] + [Solo(id, 3)]);
    var rings := [Scope(a, [x, z]), Scope(b, [y])];
    assert [x, z][1..] == [z] && [z][1..] == [] && rings[1..] == [Scope(b, [y])];
    assert RouteIn([z], id) == None;
    assert RouteIn([x, z], id) == None;
    assert Evict(rings)[0].routes == [z];
    assert Evict(rings) == [Scope(a, [z]), Scope(b, [y])];
    assert Total(rings) > 0;
    assert [z] + [Solo(id, 3)] == [z, Solo(id, 3)];
  }
}

/**
  The group tree and the dispatcher of group.go.

  Groups live in an arena: `Tree.nodes` holds one `Node` per group and a group
  is named by its index. A node's parent has a smaller index than the node and
  its subgroups larger ones, since a subgroup is always created after its
  parent. Handlers and middleware are opaque identities; what dispatching a
  request does to the response is recorded as a trace of events: status
  writes, body writes, a middleware's work before and after the handler it
  wraps, and the handler being invoked.
*/
module Groups {
  import opened Wrappers
  import opened Paths
  import opened Routes

  /** An opaque middleware: only its identity matters to the router. */
  type MiddlewareId = nat

  const STATUS_NOT_FOUND: int := 404

  /** A request as the router sees it, with the parameter map attached to its context. */
  datatype Request = Request(httpMethod: string, path: string, params: Option<map<string, string>>)

  /** What dispatching does to the response writer, in order. */
  datatype Event =
    | WriteHeader(status: int)
    | WriteBody(body: string)
    | Before(middleware: MiddlewareId)
    | After(middleware: MiddlewareId)
    | Invoke(handler: HandlerId, request: Request)

  /** A handler wrapped by zero or more middleware, outermost first. */
  datatype Chain = Handler(id: HandlerId) | Wrapped(middleware: MiddlewareId, next: Chain)

  /** A `Group`: full prefix, middleware, routes, subgroup indices, parent index. */
  datatype Node = Node(
    prefix: string,
    middleware: seq<MiddlewareId>,
    routes: seq<Route>,
    subgroups: seq<nat>,
    parent: Option<nat>)

  datatype Outcome = Outcome(handled: bool, trace: seq<Event>)

  /** A registered route together with the group that owns it. */
  datatype Entry = Entry(node: nat, route: Route)

  /** The route that matched a request, its group, and the parameter map built for it. */
  datatype Hit = Hit(node: nat, route: Route, params: map<string, string>)

  /** A group with no middleware, routes or subgroups. */
  function EmptyGroup(prefix: string, parent: Option<nat>): Node {
    Node(prefix, [], [], [], parent)
  }

  /**
    The arena is a tree rooted at index 0: only the root has no parent, every
    other group is listed among its parent's subgroups, parents come before
    children, and every route was built by the pattern compiler.
  */
  predicate WellFormed(nodes: seq<Node>) {
    && Rooted(nodes)
    && (forall i :: 0 <= i < |nodes| && nodes[i].parent.Some? ==> i in nodes[nodes[i].parent.value].subgroups)
    && (forall i, j :: 0 <= i < |nodes| && 0 <= j < |nodes[i].subgroups| ==>
          i < nodes[i].subgroups[j] < |nodes| && nodes[nodes[i].subgroups[j]].parent == Some(i))
    && RoutesOk(nodes)
  }

  /** Every registered route was built by the pattern compiler. */
  predicate RoutesOk(nodes: seq<Node>) {
    forall i, k :: 0 <= i < |nodes| && 0 <= k < |nodes[i].routes| ==> RouteOk(nodes[i].routes[k])
  }

  /** The parent links alone: only group 0 has no parent, and every parent comes before its child. */
  predicate Rooted(nodes: seq<Node>) {
    && |nodes| > 0
    && (forall i :: 0 <= i < |nodes| ==> (nodes[i].parent.None? <==> i == 0))
    && (forall i :: 0 <= i < |nodes| && nodes[i].parent.Some? ==> nodes[i].parent.value < i)
  }

  // ---------------------------------------------------------------------
  // Registration, as functions on the arena
  // ---------------------------------------------------------------------

  /** `g.Group(prefix)`: a new empty group, last among g's subgroups. */
  function AddSubgroup(nodes: seq<Node>, g: nat, prefix: string): seq<Node>
    requires g < |nodes|
  {
    nodes[g := nodes[g].(subgroups := nodes[g].subgroups + [|nodes|])]
      + [EmptyGroup(nodes[g].prefix + prefix, Some(g))]
  }

  /** `g.Use(ms...)`. */
  function AddMiddleware(nodes: seq<Node>, g: nat, ms: seq<MiddlewareId>): seq<Node>
    requires g < |nodes|
  {
    nodes[g := nodes[g].(middleware := nodes[g].middleware + ms)]
  }

  /** Appends one route to g's routes. */
  function AddRoute(nodes: seq<Node>, g: nat, route: Route): seq<Node>
    requires g < |nodes|
  {
    nodes[g := nodes[g].(routes := nodes[g].routes + [route])]
  }

  /** The template `Handle` compiles: the prefix and the pattern joined by exactly one '/'. */
  function FullPattern(prefix: string, pattern: string): string {
    TrimRightSlashes(prefix) + "/" + TrimLeftSlashes(pattern)
  }

  /** The route `Handle` appends to a group with the given prefix. */
  function RouteFor(httpMethod: string, prefix: string, pattern: string, handler: HandlerId): Route {
    var compiled := Compile(FullPattern(prefix, pattern));
    Route(httpMethod, compiled.0, compiled.1, handler)
  }

  // ---------------------------------------------------------------------
  // Matching one route
  // ---------------------------------------------------------------------

  /** The parameter map: name i bound to capture i, later bindings overriding earlier ones. */
  function Bind(names: seq<string>, values: seq<string>): map<string, string>
    requires |names| == |values|
  {
    if names == [] then map[]
    else Bind(names[..|names| - 1], values[..|values| - 1])[names[|names| - 1] := values[|values| - 1]]
  }

  /**
    A route matches when the request method equals the route's method exactly
    and the compiled pattern accepts the whole path; the result is the
    parameter map.
  */
  function RouteMatches(route: Route, req: Request): Option<map<string, string>>
    requires RouteOk(route)
  {
    if req.httpMethod != route.httpMethod then None
    else match Match(route.pattern.segments, req.path)
      case None => None
      case Some(caps) => Some(Bind(route.paramNames, caps))
  }

  // ---------------------------------------------------------------------
  // Middleware
  // ---------------------------------------------------------------------

  /** `collectMiddlewares`: the ancestors' middleware, root first, then the group's own. */
  function CollectMiddlewares(nodes: seq<Node>, g: nat): seq<MiddlewareId>
    requires Rooted(nodes) && g < |nodes|
    decreases g
  {
    match nodes[g].parent
    case None => nodes[g].middleware
    case Some(p) => CollectMiddlewares(nodes, p) + nodes[g].middleware
  }

  /** The groups from the root down to g, each the parent of the next. */
  function Ancestry(nodes: seq<Node>, g: nat): (path: seq<nat>)
    requires Rooted(nodes) && g < |nodes|
    ensures |path| >= 1 && path[0] == 0 && path[|path| - 1] == g
    ensures forall k :: 0 <= k < |path| ==> path[k] <= g
    ensures forall k :: 0 < k < |path| ==> path[k] < |nodes| && nodes[path[k]].parent == Some(path[k - 1])
    decreases g
  {
    match nodes[g].parent
    case None => [g]
    case Some(p) => Ancestry(nodes, p) + [g]
  }

  /** The handler wrapped by `mws`, the first of them outermost. */
  function Nest(mws: seq<MiddlewareId>, h: HandlerId): Chain {
    if mws == [] then Handler(h) else Wrapped(mws[0], Nest(mws[1..], h))
  }

  /** Invoking a chain: each middleware's work before, the handler, each one's work after. */
  function Run(chain: Chain, req: Request): seq<Event> {
    match chain
    case Handler(h) => [Invoke(h, req)]
    case Wrapped(m, next) => [Before(m)] + Run(next, req) + [After(m)]
  }

  function Befores(mws: seq<MiddlewareId>): seq<Event> {
    seq(|mws|, k requires 0 <= k < |mws| => Before(mws[k]))
  }

  function AftersReversed(mws: seq<MiddlewareId>): seq<Event> {
    seq(|mws|, k requires 0 <= k < |mws| => After(mws[|mws| - 1 - k]))
  }

  /** What serving a matched route writes: its wrapped handler run on the request with its parameters. */
  function Serve(nodes: seq<Node>, hit: Hit, req: Request): seq<Event>
    requires WellFormed(nodes) && hit.node < |nodes|
  {
    Run(Nest(CollectMiddlewares(nodes, hit.node), hit.route.handler), req.(params := Some(hit.params)))
  }

  // ---------------------------------------------------------------------
  // The tree flattened in search order: a reference for dispatch
  // ---------------------------------------------------------------------

  /** The groups of g's subtree in pre-order: g, then each subgroup's subtree in order. */
  function SubtreeNodes(nodes: seq<Node>, g: nat): (ns: seq<nat>)
    requires WellFormed(nodes) && g < |nodes|
    ensures |ns| >= 1 && ns[0] == g
    ensures forall k :: 0 <= k < |ns| ==> g <= ns[k] < |nodes|
    decreases |nodes| - g, 1
  {
    [g] + ChildrenNodes(nodes, g, 0)
  }

  /** The subtrees of g's subgroups from the i-th on, in order. */
  function ChildrenNodes(nodes: seq<Node>, g: nat, i: nat): (ns: seq<nat>)
    requires WellFormed(nodes) && g < |nodes| && i <= |nodes[g].subgroups|
    ensures forall k :: 0 <= k < |ns| ==> g < ns[k] < |nodes|
    decreases |nodes| - g, 0, |nodes[g].subgroups| - i
  {
    if i == |nodes[g].subgroups| then []
    else SubtreeNodes(nodes, nodes[g].subgroups[i]) + ChildrenNodes(nodes, g, i + 1)
  }

  function OwnEntries(nodes: seq<Node>, g: nat): seq<Entry>
    requires g < |nodes|
  {
    seq(|nodes[g].routes|, k requires 0 <= k < |nodes[g].routes| => Entry(g, nodes[g].routes[k]))
  }

  predicate EntriesOk(nodes: seq<Node>, es: seq<Entry>) {
    forall k :: 0 <= k < |es| ==> es[k].node < |nodes| && RouteOk(es[k].route)
  }

  /** The routes of the listed groups, group by group, each group's in registration order. */
  function EntriesOf(nodes: seq<Node>, ns: seq<nat>): (es: seq<Entry>)
    requires RoutesOk(nodes) && forall k :: 0 <= k < |ns| ==> ns[k] < |nodes|
    ensures EntriesOk(nodes, es)
  {
    if ns == [] then [] else OwnEntries(nodes, ns[0]) + EntriesOf(nodes, ns[1..])
  }

  /** Every route of g's subtree in the order the dispatcher tries them. */
  function Entries(nodes: seq<Node>, g: nat): seq<Entry>
    requires WellFormed(nodes) && g < |nodes|
  {
    EntriesOf(nodes, SubtreeNodes(nodes, g))
  }

  /** The first entry that matches the request, with its parameter map. */
  function FirstMatch(es: seq<Entry>, req: Request): (r: Option<Hit>)
    requires forall k :: 0 <= k < |es| ==> RouteOk(es[k].route)
    ensures r.None? <==> forall k :: 0 <= k < |es| ==> RouteMatches(es[k].route, req).None?
    ensures r.Some? ==> Entry(r.value.node, r.value.route) in es
  {
    if es == [] then None
    else match RouteMatches(es[0].route, req)
      case Some(params) => Some(Hit(es[0].node, es[0].route, params))
      case None => FirstMatch(es[1..], req)
  }

  // ---------------------------------------------------------------------
  // Dispatch, as handleRequest does it
  // ---------------------------------------------------------------------

  function NotFounds(n: nat): seq<Event> {
    seq(n, _ => WriteHeader(STATUS_NOT_FOUND))
  }

  /**
    `g.handleRequest`: the group's own routes in order; on the first match the
    wrapped handler runs and the search stops; otherwise the subgroups are
    searched in order, and when none of them handles the request the group
    writes 404.
  */
  function Dispatch(nodes: seq<Node>, g: nat, req: Request): Outcome
    requires WellFormed(nodes) && g < |nodes|
    decreases |nodes| - g, 1
  {
    match FirstMatch(OwnEntries(nodes, g), req)
    case Some(hit) => Outcome(true, Serve(nodes, hit, req))
    case None => DispatchSubgroups(nodes, g, 0, req)
  }

  /** The loop over g's subgroups from the i-th on. */
  function DispatchSubgroups(nodes: seq<Node>, g: nat, i: nat, req: Request): Outcome
    requires WellFormed(nodes) && g < |nodes| && i <= |nodes[g].subgroups|
    decreases |nodes| - g, 0, |nodes[g].subgroups| - i
  {
    if i == |nodes[g].subgroups| then Outcome(false, [WriteHeader(STATUS_NOT_FOUND)])
    else
      var first := Dispatch(nodes, nodes[g].subgroups[i], req);
      if first.handled then first
      else
        var rest := DispatchSubgroups(nodes, g, i + 1, req);
        Outcome(rest.handled, first.trace + rest.trace)
  }

  // ---------------------------------------------------------------------
  // The group, as a class whose registration methods update the arena
  // ---------------------------------------------------------------------

  class Tree {
    var nodes: seq<Node>

    predicate Valid()
      reads this
    {
      WellFormed(nodes)
    }

    /** A tree holding only an empty root group. */
    constructor ()
      ensures Valid() && nodes == [EmptyGroup("", None)]
    {
      nodes := [EmptyGroup("", None)];
    }

    /** `Group`: creates subgroup `sub` of g, prefix g's prefix followed by `prefix`. */
    method Group(g: nat, prefix: string) returns (sub: nat)
      requires Valid() && g < |nodes|
      modifies this
      ensures Valid()
      ensures sub == |old(nodes)| && nodes == AddSubgroup(old(nodes), g, prefix)
      ensures nodes[sub] == EmptyGroup(old(nodes)[g].prefix + prefix, Some(g))
      ensures nodes[g].subgroups == old(nodes)[g].subgroups + [sub]
      ensures nodes[g].prefix == old(nodes)[g].prefix && nodes[g].middleware == old(nodes)[g].middleware
      ensures nodes[g].routes == old(nodes)[g].routes && nodes[g].parent == old(nodes)[g].parent
    {
      AddSubgroupWellFormed(nodes, g, prefix);
      sub := |nodes|;
      nodes := AddSubgroup(nodes, g, prefix);
    }

    /** `Use`: appends `ms`, in order, to g's middleware. */
    method Use(g: nat, ms: seq<MiddlewareId>)
      requires Valid() && g < |nodes|
      modifies this
      ensures Valid()
      ensures nodes == AddMiddleware(old(nodes), g, ms)
    {
      AddMiddlewareWellFormed(nodes, g, ms);
      nodes := AddMiddleware(nodes, g, ms);
    }

    /** `Handle`: compiles the full template and appends exactly one route to g. */
    method Handle(g: nat, httpMethod: string, pattern: string, handler: HandlerId)
      requires Valid() && g < |nodes|
      requires LiteralsPlain(Segments(Split(FullPattern(nodes[g].prefix, pattern))))
      modifies this
      ensures Valid()
      ensures nodes == AddRoute(old(nodes), g, RouteFor(httpMethod, old(nodes)[g].prefix, pattern, handler))
    {
      var fullPattern := TrimRightSlashes(nodes[g].prefix) + "/" + TrimLeftSlashes(pattern);
      var regexPattern, paramNames := ParsePattern(fullPattern);
      var route := Route(httpMethod, regexPattern, paramNames, handler);
      CompiledRouteOk(fullPattern, httpMethod, handler);
      AddRouteWellFormed(nodes, g, route);
      nodes := AddRoute(nodes, g, route);
    }

    method GET(g: nat, pattern: string, handler: HandlerId)
      requires Valid() && g < |nodes|
      requires LiteralsPlain(Segments(Split(FullPattern(nodes[g].prefix, pattern))))
      modifies this
      ensures Valid()
      ensures nodes == AddRoute(old(nodes), g, RouteFor("GET", old(nodes)[g].prefix, pattern, handler))
    {
      Handle(g, "GET", pattern, handler);
    }

    method POST(g: nat, pattern: string, handler: HandlerId)
      requires Valid() && g < |nodes|
      requires LiteralsPlain(Segments(Split(FullPattern(nodes[g].prefix, pattern))))
      modifies this
      ensures Valid()
      ensures nodes == AddRoute(old(nodes), g, RouteFor("POST", old(nodes)[g].prefix, pattern, handler))
    {
      Handle(g, "POST", pattern, handler);
    }

    method PUT(g: nat, pattern: string, handler: HandlerId)
      requires Valid() && g < |nodes|
      requires LiteralsPlain(Segments(Split(FullPattern(nodes[g].prefix, pattern))))
      modifies this
      ensures Valid()
      ensures nodes == AddRoute(old(nodes), g, RouteFor("PUT", old(nodes)[g].prefix, pattern, handler))
    {
      Handle(g, "PUT", pattern, handler);
    }

    method DELETE(g: nat, pattern: string, handler: HandlerId)
      requires Valid() && g < |nodes|
      requires LiteralsPlain(Segments(Split(FullPattern(nodes[g].prefix, pattern))))
      modifies this
      ensures Valid()
      ensures nodes == AddRoute(old(nodes), g, RouteFor("DELETE", old(nodes)[g].prefix, pattern, handler))
    {
      Handle(g, "DELETE", pattern, handler);
    }

    method PATCH(g: nat, pattern: string, handler: HandlerId)
      requires Valid() && g < |nodes|
      requires LiteralsPlain(Segments(Split(FullPattern(nodes[g].prefix, pattern))))
      modifies this
      ensures Valid()
      ensures nodes == AddRoute(old(nodes), g, RouteFor("PATCH", old(nodes)[g].prefix, pattern, handler))
    {
      Handle(g, "PATCH", pattern, handler);
    }

    method HEAD(g: nat, pattern: string, handler: HandlerId)
      requires Valid() && g < |nodes|
      requires LiteralsPlain(Segments(Split(FullPattern(nodes[g].prefix, pattern))))
      modifies this
      ensures Valid()
      ensures nodes == AddRoute(old(nodes), g, RouteFor("HEAD", old(nodes)[g].prefix, pattern, handler))
    {
      Handle(g, "HEAD", pattern, handler);
    }

    method OPTIONS(g: nat, pattern: string, handler: HandlerId)
      requires Valid() && g < |nodes|
      requires LiteralsPlain(Segments(Split(FullPattern(nodes[g].prefix, pattern))))
      modifies this
      ensures Valid()
      ensures nodes == AddRoute(old(nodes), g, RouteFor("OPTIONS", old(nodes)[g].prefix, pattern, handler))
    {
      Handle(g, "OPTIONS", pattern, handler);
    }

    /**
      `handleRequest`: scans g's routes, then recurses into its subgroups; the
      trace is what is written to the response.
    */
    method HandleRequest(g: nat, req: Request) returns (handled: bool, trace: seq<Event>)
      requires Valid() && g < |nodes|
      ensures Outcome(handled, trace) == Dispatch(nodes, g, req)
      decreases |nodes| - g, 1
    {
      var found, served := ServeOwnRoutes(g, req);
      if found {
        return true, served;
      }
      handled, trace := HandleSubgroups(g, req);
    }

    /** The second loop of handleRequest: g's subgroups in registration order, then 404. */
    method HandleSubgroups(g: nat, req: Request) returns (handled: bool, trace: seq<Event>)
      requires Valid() && g < |nodes|
      ensures Outcome(handled, trace) == DispatchSubgroups(nodes, g, 0, req)
      decreases |nodes| - g, 0
    {
      var subgroups := nodes[g].subgroups;
      trace := [];
      for j := 0 to |subgroups|
        invariant DispatchSubgroups(nodes, g, 0, req) == WrittenBefore(trace, DispatchSubgroups(nodes, g, j, req))
      {
        var subHandled, subTrace := HandleRequest(subgroups[j], req);
        SubgroupsStep(nodes, g, j, req, trace);
        if subHandled {
          return true, trace + subTrace;
        }
        trace := trace + subTrace;
      }
      assert DispatchSubgroups(nodes, g, |subgroups|, req) == Outcome(false, [WriteHeader(STATUS_NOT_FOUND)]);
      return false, trace + [WriteHeader(STATUS_NOT_FOUND)];
    }

    /** The first loop of handleRequest: g's own routes, in registration order. */
    method ServeOwnRoutes(g: nat, req: Request) returns (found: bool, trace: seq<Event>)
      requires Valid() && g < |nodes|
      ensures found <==> FirstMatch(OwnEntries(nodes, g), req).Some?
      ensures found ==> trace == Serve(nodes, FirstMatch(OwnEntries(nodes, g), req).value, req)
      ensures !found ==> trace == []
    {
      var routes := nodes[g].routes;
      ghost var own := OwnEntries(nodes, g);
      for i := 0 to |routes|
        invariant forall k :: 0 <= k < i ==> RouteMatches(own[k].route, req).None?
      {
        var route := routes[i];
        assert route == own[i].route;
        if req.httpMethod != route.httpMethod {
          continue;
        }
        var matches := Match(route.pattern.segments, req.path);
        if matches.Some? {
          var params := BindParams(route.paramNames, matches.value);
          var middlewares := CollectMiddlewares(nodes, g);
          var finalHandler := Wrap(middlewares, route.handler);
          FirstMatchAt(own, i, req);
          return true, Run(finalHandler, req.(params := Some(params)));
        }
      }
      return false, [];
    }
  }

  /** One turn of the subgroup loop, with `trace` already written. */
  lemma SubgroupsStep(nodes: seq<Node>, g: nat, j: nat, req: Request, trace: seq<Event>)
    requires WellFormed(nodes) && g < |nodes| && j < |nodes[g].subgroups|
    ensures var first := Dispatch(nodes, nodes[g].subgroups[j], req);
      WrittenBefore(trace, DispatchSubgroups(nodes, g, j, req))
        == if first.handled then Outcome(true, trace + first.trace)
           else WrittenBefore(trace + first.trace, DispatchSubgroups(nodes, g, j + 1, req))
  {
    var first := Dispatch(nodes, nodes[g].subgroups[j], req);
    var rest := DispatchSubgroups(nodes, g, j + 1, req);
    assert trace + first.trace + rest.trace == trace + (first.trace + rest.trace);
  }

  /** An outcome with `trace` written before it. */
  function WrittenBefore(trace: seq<Event>, o: Outcome): Outcome {
    Outcome(o.handled, trace + o.trace)
  }

  /** The loop of handleRequest that fills the parameter map. */
  method BindParams(names: seq<string>, values: seq<string>) returns (params: map<string, string>)
    requires |names| == |values|
    ensures params == Bind(names, values)
  {
    params := map[];
    for i := 0 to |names|
      invariant params == Bind(names[..i], values[..i])
    {
      assert names[..i + 1][..i] == names[..i] && values[..i + 1][..i] == values[..i];
      params := params[names[i] := values[i]];
    }
    assert names[..|names|] == names && values[..|values|] == values;
  }

  /** The loop of handleRequest that wraps the handler, from the last middleware to the first. */
  method Wrap(middlewares: seq<MiddlewareId>, handler: HandlerId) returns (finalHandler: Chain)
    ensures finalHandler == Nest(middlewares, handler)
  {
    finalHandler := Handler(handler);
    var i := |middlewares|;
    while i > 0
      invariant 0 <= i <= |middlewares|
      invariant finalHandler == Nest(middlewares[i..], handler)
    {
      i := i - 1;
      assert middlewares[i..][1..] == middlewares[i + 1..];
      finalHandler := Wrapped(middlewares[i], finalHandler);
    }
  }

  // ---------------------------------------------------------------------
  // Lemmas: registration
  // ---------------------------------------------------------------------

  lemma AddSubgroupWellFormed(nodes: seq<Node>, g: nat, prefix: string)
    requires WellFormed(nodes) && g < |nodes|
    ensures WellFormed(AddSubgroup(nodes, g, prefix))
  {
    AddSubgroupParents(nodes, g, prefix);
    AddSubgroupChildren(nodes, g, prefix);
    AddSubgroupRoutes(nodes, g, prefix);
  }

  lemma AddSubgroupParents(nodes: seq<Node>, g: nat, prefix: string)
    requires WellFormed(nodes) && g < |nodes|
    ensures Rooted(AddSubgroup(nodes, g, prefix))
    ensures var after := AddSubgroup(nodes, g, prefix);
      forall i :: 0 <= i < |after| && after[i].parent.Some? ==> i in after[after[i].parent.value].subgroups
  {
    var after := AddSubgroup(nodes, g, prefix);
    forall i | 0 <= i < |after| && after[i].parent.Some?
      ensures after[i].parent.value < i && i in after[after[i].parent.value].subgroups
    {
      if i < |nodes| {
        assert nodes[i].parent == after[i].parent;
        assert i in nodes[nodes[i].parent.value].subgroups;
      }
    }
  }

  lemma AddSubgroupChildren(nodes: seq<Node>, g: nat, prefix: string)
    requires WellFormed(nodes) && g < |nodes|
    ensures var after := AddSubgroup(nodes, g, prefix);
      forall i, j :: 0 <= i < |after| && 0 <= j < |after[i].subgroups| ==>
        i < after[i].subgroups[j] < |after| && after[after[i].subgroups[j]].parent == Some(i)
  {
    var after := AddSubgroup(nodes, g, prefix);
    forall i, j | 0 <= i < |after| && 0 <= j < |after[i].subgroups|
      ensures i < after[i].subgroups[j] < |after| && after[after[i].subgroups[j]].parent == Some(i)
    {
      if i == g && j == |nodes[g].subgroups| {
      } else {
        assert after[i].subgroups[j] == nodes[i].subgroups[j];
      }
    }
  }

  lemma AddSubgroupRoutes(nodes: seq<Node>, g: nat, prefix: string)
    requires RoutesOk(nodes) && g < |nodes|
    ensures RoutesOk(AddSubgroup(nodes, g, prefix))
  {
    var after := AddSubgroup(nodes, g, prefix);
    forall i, k | 0 <= i < |after| && 0 <= k < |after[i].routes|
      ensures RouteOk(after[i].routes[k])
    {
      assert i < |nodes| && after[i].routes == nodes[i].routes;
    }
  }


  lemma AddMiddlewareWellFormed(nodes: seq<Node>, g: nat, ms: seq<MiddlewareId>)
    requires WellFormed(nodes) && g < |nodes|
    ensures WellFormed(AddMiddleware(nodes, g, ms))
  {
    var after := AddMiddleware(nodes, g, ms);
    forall i | 0 <= i < |after| && after[i].parent.Some?
      ensures after[i].parent.value < i && i in after[after[i].parent.value].subgroups
    {
      assert i in nodes[nodes[i].parent.value].subgroups;
    }
  }

  lemma AddMiddlewareRooted(nodes: seq<Node>, g: nat, ms: seq<MiddlewareId>)
    requires Rooted(nodes) && g < |nodes|
    ensures Rooted(AddMiddleware(nodes, g, ms))
  {
  }

  lemma AddRouteWellFormed(nodes: seq<Node>, g: nat, route: Route)
    requires WellFormed(nodes) && g < |nodes| && RouteOk(route)
    ensures WellFormed(AddRoute(nodes, g, route))
  {
    var after := AddRoute(nodes, g, route);
    forall i | 0 <= i < |after| && after[i].parent.Some?
      ensures after[i].parent.value < i && i in after[after[i].parent.value].subgroups
    {
      assert i in nodes[nodes[i].parent.value].subgroups;
    }
  }

  // ---------------------------------------------------------------------
  // Lemmas: the first match
  // ---------------------------------------------------------------------

  /** When entry i matches and none before it does, it is the first match. */
  lemma {:induction false} FirstMatchAt(es: seq<Entry>, i: nat, req: Request)
    requires forall k :: 0 <= k < |es| ==> RouteOk(es[k].route)
    requires i < |es| && RouteMatches(es[i].route, req).Some?
    requires forall k :: 0 <= k < i ==> RouteMatches(es[k].route, req).None?
    ensures FirstMatch(es, req) == Some(Hit(es[i].node, es[i].route, RouteMatches(es[i].route, req).value))
  {
    if i > 0 {
      FirstMatchAt(es[1..], i - 1, req);
    }
  }

  // ---------------------------------------------------------------------
  // Lemmas: the template Handle compiles
  // ---------------------------------------------------------------------

  lemma {:induction false} TrimRightKeepsCompile(s: string)
    ensures Compile(TrimRightSlashes(s)) == Compile(s)
  {
    if |s| > 0 && s[|s| - 1] == '/' {
      var init := s[..|s| - 1];
      assert s == init + "/";
      calc {
        Compile(TrimRightSlashes(s));
        Compile(TrimRightSlashes(init));
        { TrimRightKeepsCompile(init); }
        Compile(init);
        { CompileTrailingSlash(init); }
        Compile(s);
      }
    }
  }

  lemma {:induction false} TrimLeftKeepsCompile(s: string)
    ensures Compile(TrimLeftSlashes(s)) == Compile(s)
  {
    if |s| > 0 && s[0] == '/' {
      var tail := s[1..];
      assert s == "/" + tail;
      calc {
        Compile(TrimLeftSlashes(s));
        Compile(TrimLeftSlashes(tail));
        { TrimLeftKeepsCompile(tail); }
        Compile(tail);
        { CompileLeadingSlash(tail); }
        Compile(s);
      }
    }
  }

  /**
    The route `Handle` registers matches the group's prefix followed by the
    pattern: its segments and names are the prefix's followed by the
    pattern's, however many slashes either side carries.
  */
  lemma FullPatternCompiles(prefix: string, pattern: string)
    ensures Compile(FullPattern(prefix, pattern)).0.segments == Compile(prefix).0.segments + Compile(pattern).0.segments
    ensures Compile(FullPattern(prefix, pattern)).1 == Compile(prefix).1 + Compile(pattern).1
  {
    TrimRightKeepsCompile(prefix);
    TrimLeftKeepsCompile(pattern);
    CompileConcat(TrimRightSlashes(prefix), TrimLeftSlashes(pattern));
  }

  // ---------------------------------------------------------------------
  // Lemmas: selecting a route and binding its parameters
  // ---------------------------------------------------------------------

  /** A route is selected exactly when the method is equal and the pattern accepts the path. */
  lemma RouteSelectedIff(route: Route, req: Request)
    requires RouteOk(route)
    ensures RouteMatches(route, req).Some? <==>
      req.httpMethod == route.httpMethod && exists caps :: Accepts(route.pattern.segments, req.path, caps)
  {
    var segs := route.pattern.segments;
    if req.httpMethod == route.httpMethod {
      var m := Match(segs, req.path);
      if m.Some? {
        MatchIffAccepts(segs, req.path, m.value);
      } else {
        forall caps ensures !Accepts(segs, req.path, caps) {
          MatchIffAccepts(segs, req.path, caps);
        }
      }
    }
  }

  /** The map of a selected route binds its names to the captures the pattern accepted. */
  lemma RouteParams(route: Route, req: Request, caps: seq<string>)
    requires RouteOk(route) && req.httpMethod == route.httpMethod
    requires Accepts(route.pattern.segments, req.path, caps)
    ensures |caps| == |route.paramNames|
    ensures RouteMatches(route, req) == Some(Bind(route.paramNames, caps))
  {
    MatchIffAccepts(route.pattern.segments, req.path, caps);
  }

  /** A literal then two parameters accept the literal and any two non-empty segments. */
  lemma LiteralThenTwoParamsAccepts(lit: string, v1: string, v2: string)
    requires SlashFree(lit) && SlashFree(v1) && SlashFree(v2) && v1 != [] && v2 != []
    ensures Match([Lit(lit), Param, Param], "/" + lit + "/" + v1 + "/" + v2) == Some([v1, v2])
  {
    var segs := [Lit(lit), Param, Param];
    var path := "/" + lit + "/" + v1 + "/" + v2;
    LiteralThenTwoParamsFill(lit, v1, v2);
    JoinThree(lit, v1, v2);
    assert path == "/" + Join(Fill(segs, [v1, v2]));
    assert Accepts(segs, path, [v1, v2]);
    MatchIffAccepts(segs, path, [v1, v2]);
  }

  lemma LiteralThenTwoParamsFill(lit: string, v1: string, v2: string)
    ensures ParamCount([Lit(lit), Param, Param]) == 2
    ensures Fill([Lit(lit), Param, Param], [v1, v2]) == [lit, v1, v2]
  {
    var segs := [Lit(lit), Param, Param];
    var init := [Lit(lit), Param];
    assert segs[..|segs| - 1] == init;
    assert init[..|init| - 1] == [Lit(lit)];
    assert [Lit(lit)][..0] == [];
    assert ParamCount([Lit(lit)]) == 0;
    assert ParamCount(init) == 1;
    assert [v1, v2][..1] == [v1] && [v1][..0] == [];
    assert Fill([Lit(lit)], []) == [lit];
    assert Fill(init, [v1]) == [lit, v1];
  }

  /** Two names bound to two values, in order. */
  lemma BindTwo(n1: string, n2: string, v1: string, v2: string)
    ensures Bind([n1, n2], [v1, v2]) == map[n1 := v1][n2 := v2]
  {
    assert [n1][..0] == [] && [v1][..0] == [];
    assert Bind([n1], [v1]) == map[n1 := v1];
    assert [n1, n2][..1] == [n1] && [v1, v2][..1] == [v1];
    assert Bind([n1, n2], [v1, v2]) == Bind([n1], [v1])[n2 := v2];
  }

  /** The route `GET "/products/:category/:id"` as `Handle` registers it on the root. */
  function ProductsRoute(): Route {
    Route("GET", Matcher("^/products/([^/]+)/([^/]+)$", [Lit("products"), Param, Param]), ["category", "id"], 1)
  }

  /** On the root, whose prefix is empty, a pattern with one leading slash is registered unchanged. */
  lemma RootFullPattern(pattern: string)
    requires |pattern| > 0 && pattern[0] == '/' && (|pattern| == 1 || pattern[1] != '/')
    ensures FullPattern("", pattern) == pattern
  {
    var tail := pattern[1..];
    assert TrimLeftSlashes(pattern) == TrimLeftSlashes(tail) == tail;
    assert TrimRightSlashes("") == "";
    assert "" + "/" + tail == pattern;
  }

  /** Registering the pattern on the root gives that route. */
  lemma ProductsRegistered()
    ensures RouteFor("GET", "", "/products/:category/:id", 1) == ProductsRoute()
  {
    RootFullPattern("/products/:category/:id");
    ParsePatternProducts();
  }

  /** A route of one literal and two parameters binds both names to the two segments after the literal. */
  lemma LiteralThenTwoParamsRoute(route: Route, lit: string, v1: string, v2: string)
    requires route.pattern.segments == [Lit(lit), Param, Param] && |route.paramNames| == 2
    requires SlashFree(lit) && SlashFree(v1) && SlashFree(v2) && v1 != [] && v2 != []
    ensures RouteOk(route) ==>
      RouteMatches(route, Request(route.httpMethod, "/" + lit + "/" + v1 + "/" + v2, None))
        == Some(map[route.paramNames[0] := v1][route.paramNames[1] := v2])
  {
    LiteralThenTwoParamsAccepts(lit, v1, v2);
    assert route.paramNames == [route.paramNames[0], route.paramNames[1]];
    BindTwo(route.paramNames[0], route.paramNames[1], v1, v2);
  }

  lemma ProductsPath()
    ensures "/products/books/7" == "/" + "products" + "/" + "books" + "/" + "7"
  {
  }

  lemma ProductsRouteOk()
    ensures RouteOk(ProductsRoute())
  {
    ParsePatternProducts();
    CompiledRouteOk("/products/:category/:id", "GET", 1);
  }

  /** GET "/products/books/7" on "/products/:category/:id" binds category and id. */
  lemma ProductsParams()
    ensures RouteOk(ProductsRoute())
    ensures RouteMatches(ProductsRoute(), Request("GET", "/products/books/7", None))
         == Some(map["category" := "books", "id" := "7"])
  {
    ProductsRouteOk();
    ProductsPath();
    var route := ProductsRoute();
    assert route.pattern.segments == [Lit("products"), Param, Param] && route.paramNames == ["category", "id"];
    assert SlashFree("products") && SlashFree("books") && SlashFree("7");
    LiteralThenTwoParamsRoute(route, "products", "books", "7");
  }

  /** The parameter map has exactly the route's names as keys. */
  lemma {:induction false} BindKeys(names: seq<string>, values: seq<string>)
    requires |names| == |values|
    ensures forall name :: name in Bind(names, values) <==> name in names
  {
    if names != [] {
      var n := |names| - 1;
      BindKeys(names[..n], values[..n]);
      assert names == names[..n] + [names[n]];
    }
  }

  /** A name that does not occur again later is bound to its own capture: the later binding wins. */
  lemma {:induction false} BindValues(names: seq<string>, values: seq<string>)
    requires |names| == |values|
    ensures forall k :: 0 <= k < |names| && (forall j :: k < j < |names| ==> names[j] != names[k]) ==>
              names[k] in Bind(names, values) && Bind(names, values)[names[k]] == values[k]
  {
    if names != [] {
      var n := |names| - 1;
      var init, initValues := names[..n], values[..n];
      BindValues(init, initValues);
      forall k | 0 <= k < |names| && (forall j :: k < j < |names| ==> names[j] != names[k])
        ensures names[k] in Bind(names, values) && Bind(names, values)[names[k]] == values[k]
      {
        if k < n {
          assert init[k] == names[k] && initValues[k] == values[k];
          assert forall j :: k < j < |init| ==> init[j] != init[k];
        }
      }
    }
  }

  // ---------------------------------------------------------------------
  // Lemmas: middleware
  // ---------------------------------------------------------------------

  /**
    Running a wrapped handler: every middleware's work before, in the order
    collected, then the handler exactly once, then every middleware's work
    after, innermost first.
  */
  lemma {:induction false} RunNested(mws: seq<MiddlewareId>, h: HandlerId, req: Request)
    ensures Run(Nest(mws, h), req) == Befores(mws) + [Invoke(h, req)] + AftersReversed(mws)
  {
    if mws != [] {
      RunNested(mws[1..], h, req);
      assert Befores(mws) == [Before(mws[0])] + Befores(mws[1..]);
      assert AftersReversed(mws) == AftersReversed(mws[1..]) + [After(mws[0])];
    }
  }

  /**
    Middleware m1 on the root and m2 on its subgroup g: the request runs m1's
    work before, m2's work before, the handler, m2's work after, m1's after.
  */
  lemma NestedMiddlewareOrder(nodes: seq<Node>, hit: Hit, req: Request, m1: MiddlewareId, m2: MiddlewareId)
    requires WellFormed(nodes) && hit.node < |nodes| && nodes[hit.node].parent == Some(0)
    requires nodes[0].middleware == [m1] && nodes[hit.node].middleware == [m2]
    ensures Serve(nodes, hit, req)
         == [Before(m1), Before(m2), Invoke(hit.route.handler, req.(params := Some(hit.params))), After(m2), After(m1)]
  {
    assert CollectMiddlewares(nodes, hit.node) == [m1, m2];
    RunNested([m1, m2], hit.route.handler, req.(params := Some(hit.params)));
  }

  /**
    Middleware m only on the subgroup g, none on the root: the request runs
    m's work before, the handler, then m's work after.
  */
  lemma ChildMiddlewareOnly(nodes: seq<Node>, hit: Hit, req: Request, m: MiddlewareId)
    requires WellFormed(nodes) && hit.node < |nodes| && nodes[hit.node].parent == Some(0)
    requires nodes[0].middleware == [] && nodes[hit.node].middleware == [m]
    ensures Serve(nodes, hit, req)
         == [Before(m), Invoke(hit.route.handler, req.(params := Some(hit.params))), After(m)]
  {
    assert CollectMiddlewares(nodes, hit.node) == [m];
    RunNested([m], hit.route.handler, req.(params := Some(hit.params)));
  }

  /** An ancestor's collected middleware is a prefix of its descendant's. */
  lemma {:induction false} CollectPrefix(nodes: seq<Node>, x: nat, g: nat)
    requires Rooted(nodes) && g < |nodes| && x in Ancestry(nodes, g)
    ensures x < |nodes| && CollectMiddlewares(nodes, x) <= CollectMiddlewares(nodes, g)
    decreases g
  {
    if x != g {
      var p := nodes[g].parent.value;
      assert Ancestry(nodes, g) == Ancestry(nodes, p) + [g];
      CollectPrefix(nodes, x, p);
    }
  }

  /** `Use` on group x leaves the middleware of every group outside x's subtree unchanged. */
  lemma {:induction false} UseOutsideScope(nodes: seq<Node>, x: nat, ms: seq<MiddlewareId>, g: nat)
    requires Rooted(nodes) && x < |nodes| && g < |nodes| && x !in Ancestry(nodes, g)
    ensures Rooted(AddMiddleware(nodes, x, ms))
    ensures CollectMiddlewares(AddMiddleware(nodes, x, ms), g) == CollectMiddlewares(nodes, g)
    decreases g
  {
    AddMiddlewareRooted(nodes, x, ms);
    if nodes[g].parent.Some? {
      var p := nodes[g].parent.value;
      assert Ancestry(nodes, g) == Ancestry(nodes, p) + [g];
      UseOutsideScope(nodes, x, ms, p);
    }
  }

  /**
    `Use` on group x adds `ms` to the middleware of every group in x's
    subtree, right after x's earlier middleware and before that of the groups
    between x and it.
  */
  lemma {:induction false} UseScope(nodes: seq<Node>, x: nat, ms: seq<MiddlewareId>, g: nat)
    requires Rooted(nodes) && x < |nodes| && g < |nodes| && x in Ancestry(nodes, g)
    ensures Rooted(AddMiddleware(nodes, x, ms))
    ensures CollectMiddlewares(nodes, x) <= CollectMiddlewares(nodes, g)
    ensures CollectMiddlewares(AddMiddleware(nodes, x, ms), g)
         == CollectMiddlewares(nodes, x) + ms + CollectMiddlewares(nodes, g)[|CollectMiddlewares(nodes, x)|..]
    decreases g
  {
    AddMiddlewareRooted(nodes, x, ms);
    CollectPrefix(nodes, x, g);
    if x == g {
      UseScopeAtGroup(nodes, x, ms);
    } else {
      var p := nodes[g].parent.value;
      assert Ancestry(nodes, g) == Ancestry(nodes, p) + [g];
      UseScope(nodes, x, ms, p);
      CollectPrefix(nodes, x, p);
      UseScopeStep(nodes, x, ms, g, p);
    }
  }

  lemma UseScopeAtGroup(nodes: seq<Node>, x: nat, ms: seq<MiddlewareId>)
    requires Rooted(nodes) && x < |nodes|
    requires Rooted(AddMiddleware(nodes, x, ms))
    ensures CollectMiddlewares(AddMiddleware(nodes, x, ms), x) == CollectMiddlewares(nodes, x) + ms
  {
    var after := AddMiddleware(nodes, x, ms);
    var mw := nodes[x].middleware;
    assert after[x].middleware == mw + ms;
    if nodes[x].parent.Some? {
      var p := nodes[x].parent.value;
      assert x !in Ancestry(nodes, p);
      UseOutsideScope(nodes, x, ms, p);
      assert CollectMiddlewares(after, x) == CollectMiddlewares(nodes, p) + (mw + ms);
    }
  }

  lemma UseScopeStep(nodes: seq<Node>, x: nat, ms: seq<MiddlewareId>, g: nat, p: nat)
    requires Rooted(nodes) && x < |nodes| && g < |nodes| && nodes[g].parent == Some(p) && x != g
    requires Rooted(AddMiddleware(nodes, x, ms))
    requires CollectMiddlewares(nodes, x) <= CollectMiddlewares(nodes, p)
    requires CollectMiddlewares(AddMiddleware(nodes, x, ms), p)
          == CollectMiddlewares(nodes, x) + ms + CollectMiddlewares(nodes, p)[|CollectMiddlewares(nodes, x)|..]
    ensures CollectMiddlewares(AddMiddleware(nodes, x, ms), g)
         == CollectMiddlewares(nodes, x) + ms + CollectMiddlewares(nodes, g)[|CollectMiddlewares(nodes, x)|..]
  {
    var after := AddMiddleware(nodes, x, ms);
    var cx, cp, mw := CollectMiddlewares(nodes, x), CollectMiddlewares(nodes, p), nodes[g].middleware;
    assert after[g] == nodes[g];
    assert CollectMiddlewares(after, g) == CollectMiddlewares(after, p) + mw;
    assert CollectMiddlewares(nodes, g) == cp + mw;
    InsertAfterPrefix(cx, cp, ms, mw);
  }

  /** Inserting `ms` after a prefix of `cp` commutes with appending `mw`. */
  lemma InsertAfterPrefix<T>(cx: seq<T>, cp: seq<T>, ms: seq<T>, mw: seq<T>)
    requires cx <= cp
    ensures (cx + ms + cp[|cx|..]) + mw == cx + ms + (cp + mw)[|cx|..]
  {
    assert (cp + mw)[|cx|..] == cp[|cx|..] + mw;
  }

  /** Registering middleware leaves the subtree order unchanged. */
  lemma {:induction false} UseKeepsSubtree(nodes: seq<Node>, x: nat, ms: seq<MiddlewareId>, g: nat)
    requires WellFormed(nodes) && x < |nodes| && g < |nodes|
    ensures WellFormed(AddMiddleware(nodes, x, ms))
    ensures SubtreeNodes(AddMiddleware(nodes, x, ms), g) == SubtreeNodes(nodes, g)
    decreases |nodes| - g, 1
  {
    AddMiddlewareWellFormed(nodes, x, ms);
    UseKeepsChildren(nodes, x, ms, g, 0);
  }

  lemma {:induction false} UseKeepsChildren(nodes: seq<Node>, x: nat, ms: seq<MiddlewareId>, g: nat, i: nat)
    requires WellFormed(nodes) && x < |nodes| && g < |nodes| && i <= |nodes[g].subgroups|
    ensures WellFormed(AddMiddleware(nodes, x, ms))
    ensures ChildrenNodes(AddMiddleware(nodes, x, ms), g, i) == ChildrenNodes(nodes, g, i)
    decreases |nodes| - g, 0, |nodes[g].subgroups| - i
  {
    AddMiddlewareWellFormed(nodes, x, ms);
    if i < |nodes[g].subgroups| {
      UseKeepsSubtree(nodes, x, ms, nodes[g].subgroups[i]);
      UseKeepsChildren(nodes, x, ms, g, i + 1);
    }
  }

  lemma {:induction false} EntriesOfSameRoutes(nodes: seq<Node>, other: seq<Node>, ns: seq<nat>)
    requires WellFormed(nodes) && WellFormed(other) && |nodes| == |other|
    requires forall i :: 0 <= i < |nodes| ==> nodes[i].routes == other[i].routes
    requires forall k :: 0 <= k < |ns| ==> ns[k] < |nodes|
    ensures EntriesOf(nodes, ns) == EntriesOf(other, ns)
  {
    if ns != [] {
      EntriesOfSameRoutes(nodes, other, ns[1..]);
    }
  }

  /**
    Middleware registered after a route still applies to it: `Use` leaves
    every group's routes and the search order as they were, so the same
    route is selected and served through the enlarged chain.
  */
  lemma UseKeepsEntries(nodes: seq<Node>, x: nat, ms: seq<MiddlewareId>, g: nat)
    requires WellFormed(nodes) && x < |nodes| && g < |nodes|
    ensures WellFormed(AddMiddleware(nodes, x, ms))
    ensures Entries(AddMiddleware(nodes, x, ms), g) == Entries(nodes, g)
  {
    UseKeepsSubtree(nodes, x, ms, g);
    EntriesOfSameRoutes(nodes, AddMiddleware(nodes, x, ms), SubtreeNodes(nodes, g));
  }

  // ---------------------------------------------------------------------
  // Lemmas: the search
  // ---------------------------------------------------------------------

  /** The first match is the earliest matching entry: the converse of `FirstMatchAt`. */
  lemma {:induction false} FirstMatchIsEarliest(es: seq<Entry>, req: Request)
    requires forall k :: 0 <= k < |es| ==> RouteOk(es[k].route)
    requires FirstMatch(es, req).Some?
    ensures exists i :: 0 <= i < |es| && FirstMatchFoundAt(es, i, req)
  {
    if RouteMatches(es[0].route, req).Some? {
      assert FirstMatchFoundAt(es, 0, req);
    } else {
      FirstMatchIsEarliest(es[1..], req);
      var i :| 0 <= i < |es| - 1 && FirstMatchFoundAt(es[1..], i, req);
      assert FirstMatchFoundAt(es, i + 1, req);
    }
  }

  /** Entry i is where the first match was found: it matches, none before it does, and the hit is its. */
  predicate FirstMatchFoundAt(es: seq<Entry>, i: nat, req: Request)
    requires i < |es| && forall k :: 0 <= k < |es| ==> RouteOk(es[k].route)
  {
    && RouteMatches(es[i].route, req).Some?
    && (forall k :: 0 <= k < i ==> RouteMatches(es[k].route, req).None?)
    && FirstMatch(es, req) == Some(Hit(es[i].node, es[i].route, RouteMatches(es[i].route, req).value))
  }

  lemma {:induction false} FirstMatchAppend(a: seq<Entry>, b: seq<Entry>, req: Request)
    requires forall k :: 0 <= k < |a| ==> RouteOk(a[k].route)
    requires forall k :: 0 <= k < |b| ==> RouteOk(b[k].route)
    ensures FirstMatch(a + b, req) == if FirstMatch(a, req).Some? then FirstMatch(a, req) else FirstMatch(b, req)
  {
    if a == [] {
      assert a + b == b;
    } else {
      assert (a + b)[0] == a[0] && (a + b)[1..] == a[1..] + b;
      FirstMatchAppend(a[1..], b, req);
    }
  }

  lemma {:induction false} EntriesOfAppend(nodes: seq<Node>, a: seq<nat>, b: seq<nat>)
    requires RoutesOk(nodes)
    requires forall k :: 0 <= k < |a| ==> a[k] < |nodes|
    requires forall k :: 0 <= k < |b| ==> b[k] < |nodes|
    ensures EntriesOf(nodes, a + b) == EntriesOf(nodes, a) + EntriesOf(nodes, b)
  {
    if a == [] {
      assert a + b == b;
    } else {
      var x, rest := a[0], a[1..];
      assert a == [x] + rest;
      assert a + b == [x] + (rest + b);
      EntriesOfAppend(nodes, rest, b);
      EntriesOfCons(nodes, x, rest + b);
      EntriesOfCons(nodes, x, rest);
    }
  }

  lemma EntriesOfCons(nodes: seq<Node>, x: nat, ns: seq<nat>)
    requires RoutesOk(nodes) && x < |nodes|
    requires forall k :: 0 <= k < |ns| ==> ns[k] < |nodes|
    ensures EntriesOf(nodes, [x] + ns) == OwnEntries(nodes, x) + EntriesOf(nodes, ns)
  {
    assert ([x] + ns)[0] == x && ([x] + ns)[1..] == ns;
  }

  lemma SubtreeEntries(nodes: seq<Node>, g: nat)
    requires WellFormed(nodes) && g < |nodes|
    ensures Entries(nodes, g) == OwnEntries(nodes, g) + EntriesOf(nodes, ChildrenNodes(nodes, g, 0))
  {
    var ns := SubtreeNodes(nodes, g);
    assert ns[0] == g && ns[1..] == ChildrenNodes(nodes, g, 0);
  }

  lemma ChildrenEntries(nodes: seq<Node>, g: nat, i: nat)
    requires WellFormed(nodes) && g < |nodes| && i < |nodes[g].subgroups|
    ensures EntriesOf(nodes, ChildrenNodes(nodes, g, i))
         == Entries(nodes, nodes[g].subgroups[i]) + EntriesOf(nodes, ChildrenNodes(nodes, g, i + 1))
  {
    EntriesOfAppend(nodes, SubtreeNodes(nodes, nodes[g].subgroups[i]), ChildrenNodes(nodes, g, i + 1));
  }

  lemma NotFoundsAdd(m: nat, n: nat)
    ensures NotFounds(m) + NotFounds(n) == NotFounds(m + n)
  {
    assert forall k :: 0 <= k < m + n ==> (NotFounds(m) + NotFounds(n))[k] == WriteHeader(STATUS_NOT_FOUND);
  }

  /**
    How an outcome relates to the first match of a search: handled exactly
    when there is one, and then only 404 writes precede the served route;
    without one, `misses` 404 writes and nothing else.
  */
  predicate Explains(nodes: seq<Node>, o: Outcome, m: Option<Hit>, misses: nat, req: Request)
    requires WellFormed(nodes)
  {
    && (o.handled <==> m.Some?)
    && (m.Some? ==>
          && m.value.node < |nodes|
          && |Serve(nodes, m.value, req)| <= |o.trace|
          && o.trace == NotFounds(|o.trace| - |Serve(nodes, m.value, req)|) + Serve(nodes, m.value, req))
    && (m.None? ==> o.trace == NotFounds(misses))
  }

  /**
    `handleRequest` is a pre-order first-match search: it reports handled
    exactly when some route of the subtree matches; then the first such route
    in search order (own routes before subgroups, each in registration order)
    is served and only 404 writes come before it; otherwise every group of the
    subtree has written 404 once.
  */
  lemma {:induction false} DispatchFindsFirstMatch(nodes: seq<Node>, g: nat, req: Request)
    requires WellFormed(nodes) && g < |nodes|
    ensures Explains(nodes, Dispatch(nodes, g, req), FirstMatch(Entries(nodes, g), req), |SubtreeNodes(nodes, g)|, req)
    decreases |nodes| - g, 1
  {
    var own := OwnEntries(nodes, g);
    var rest := EntriesOf(nodes, ChildrenNodes(nodes, g, 0));
    SubtreeEntries(nodes, g);
    FirstMatchAppend(own, rest, req);
    if FirstMatch(own, req).None? {
      DispatchSubgroupsFindsFirstMatch(nodes, g, 0, req);
    } else {
      assert NotFounds(0) == [];
    }
  }

  lemma {:induction false} DispatchSubgroupsFindsFirstMatch(nodes: seq<Node>, g: nat, i: nat, req: Request)
    requires WellFormed(nodes) && g < |nodes| && i <= |nodes[g].subgroups|
    ensures Explains(nodes, DispatchSubgroups(nodes, g, i, req),
      FirstMatch(EntriesOf(nodes, ChildrenNodes(nodes, g, i)), req), |ChildrenNodes(nodes, g, i)| + 1, req)
    decreases |nodes| - g, 0, |nodes[g].subgroups| - i
  {
    if i == |nodes[g].subgroups| {
      SubgroupsExhausted(nodes, g, req);
    } else {
      var c := nodes[g].subgroups[i];
      DispatchFindsFirstMatch(nodes, c, req);
      if Dispatch(nodes, c, req).handled {
        SubgroupServes(nodes, g, i, req);
      } else {
        DispatchSubgroupsFindsFirstMatch(nodes, g, i + 1, req);
        SubgroupMisses(nodes, g, i, req);
      }
    }
  }

  /** After the last subgroup the loop writes its one 404. */
  lemma SubgroupsExhausted(nodes: seq<Node>, g: nat, req: Request)
    requires WellFormed(nodes) && g < |nodes|
    ensures Explains(nodes, DispatchSubgroups(nodes, g, |nodes[g].subgroups|, req),
      FirstMatch(EntriesOf(nodes, ChildrenNodes(nodes, g, |nodes[g].subgroups|)), req),
      |ChildrenNodes(nodes, g, |nodes[g].subgroups|)| + 1, req)
  {
    assert ChildrenNodes(nodes, g, |nodes[g].subgroups|) == [];
    assert NotFounds(1) == [WriteHeader(STATUS_NOT_FOUND)];
  }

  /** The i-th subgroup serves the request: so does the loop from i on. */
  lemma SubgroupServes(nodes: seq<Node>, g: nat, i: nat, req: Request)
    requires WellFormed(nodes) && g < |nodes| && i < |nodes[g].subgroups|
    requires Dispatch(nodes, nodes[g].subgroups[i], req).handled
    requires Explains(nodes, Dispatch(nodes, nodes[g].subgroups[i], req),
      FirstMatch(Entries(nodes, nodes[g].subgroups[i]), req), |SubtreeNodes(nodes, nodes[g].subgroups[i])|, req)
    ensures Explains(nodes, DispatchSubgroups(nodes, g, i, req),
      FirstMatch(EntriesOf(nodes, ChildrenNodes(nodes, g, i)), req), |ChildrenNodes(nodes, g, i)| + 1, req)
  {
    var c := nodes[g].subgroups[i];
    ChildrenEntries(nodes, g, i);
    FirstMatchAppend(Entries(nodes, c), EntriesOf(nodes, ChildrenNodes(nodes, g, i + 1)), req);
  }

  /** The i-th subgroup misses: the loop from i on is that miss followed by the loop from i + 1. */
  lemma SubgroupMisses(nodes: seq<Node>, g: nat, i: nat, req: Request)
    requires WellFormed(nodes) && g < |nodes| && i < |nodes[g].subgroups|
    requires !Dispatch(nodes, nodes[g].subgroups[i], req).handled
    requires Explains(nodes, Dispatch(nodes, nodes[g].subgroups[i], req),
      FirstMatch(Entries(nodes, nodes[g].subgroups[i]), req), |SubtreeNodes(nodes, nodes[g].subgroups[i])|, req)
    requires Explains(nodes, DispatchSubgroups(nodes, g, i + 1, req),
      FirstMatch(EntriesOf(nodes, ChildrenNodes(nodes, g, i + 1)), req), |ChildrenNodes(nodes, g, i + 1)| + 1, req)
    ensures Explains(nodes, DispatchSubgroups(nodes, g, i, req),
      FirstMatch(EntriesOf(nodes, ChildrenNodes(nodes, g, i)), req), |ChildrenNodes(nodes, g, i)| + 1, req)
  {
    var c := nodes[g].subgroups[i];
    var later := EntriesOf(nodes, ChildrenNodes(nodes, g, i + 1));
    ChildrenEntries(nodes, g, i);
    FirstMatchAppend(Entries(nodes, c), later, req);
    var first := Dispatch(nodes, c, req);
    var rest := DispatchSubgroups(nodes, g, i + 1, req);
    var o := Outcome(rest.handled, first.trace + rest.trace);
    assert DispatchSubgroups(nodes, g, i, req) == o;
    assert FirstMatch(Entries(nodes, c), req).None?;
    assert FirstMatch(EntriesOf(nodes, ChildrenNodes(nodes, g, i)), req) == FirstMatch(later, req);
    assert |ChildrenNodes(nodes, g, i)| == |SubtreeNodes(nodes, c)| + |ChildrenNodes(nodes, g, i + 1)|;
    MissThenOutcome(nodes, first, rest, FirstMatch(later, req),
      |SubtreeNodes(nodes, c)|, |ChildrenNodes(nodes, g, i + 1)| + 1, req);
    assert Explains(nodes, o, FirstMatch(later, req), |ChildrenNodes(nodes, g, i)| + 1, req);
  }

  /** A search that missed everywhere, followed by another search. */
  lemma MissThenOutcome(nodes: seq<Node>, first: Outcome, rest: Outcome, m: Option<Hit>, n1: nat, n2: nat, req: Request)
    requires WellFormed(nodes)
    requires !first.handled && first.trace == NotFounds(n1)
    requires Explains(nodes, rest, m, n2, req)
    ensures Explains(nodes, Outcome(rest.handled, first.trace + rest.trace), m, n1 + n2, req)
  {
    if m.Some? {
      var served := Serve(nodes, m.value, req);
      NotFoundsAdd(n1, |rest.trace| - |served|);
      assert first.trace + rest.trace == (NotFounds(n1) + NotFounds(|rest.trace| - |served|)) + served;
    } else {
      NotFoundsAdd(n1, n2);
    }
  }

  // ---------------------------------------------------------------------
  // The handler runs once
  // ---------------------------------------------------------------------

  /** The number of handler invocations in a trace. */
  function Invocations(trace: seq<Event>): nat {
    if trace == [] then 0 else (if trace[0].Invoke? then 1 else 0) + Invocations(trace[1..])
  }

  lemma {:induction false} InvocationsAppend(a: seq<Event>, b: seq<Event>)
    ensures Invocations(a + b) == Invocations(a) + Invocations(b)
  {
    if a == [] {
      assert a + b == b;
    } else {
      assert (a + b)[1..] == a[1..] + b;
      InvocationsAppend(a[1..], b);
    }
  }

  lemma {:induction false} NoInvocations(trace: seq<Event>)
    requires forall k :: 0 <= k < |trace| ==> !trace[k].Invoke?
    ensures Invocations(trace) == 0
  {
    if trace != [] {
      NoInvocations(trace[1..]);
    }
  }

  /** Serving a route invokes its handler exactly once, whatever wraps it. */
  lemma ServeInvokesOnce(nodes: seq<Node>, hit: Hit, req: Request)
    requires WellFormed(nodes) && hit.node < |nodes|
    ensures Invocations(Serve(nodes, hit, req)) == 1
  {
    var mws := CollectMiddlewares(nodes, hit.node);
    var req' := req.(params := Some(hit.params));
    RunNested(mws, hit.route.handler, req');
    NoInvocations(Befores(mws));
    NoInvocations(AftersReversed(mws));
    InvocationsAppend(Befores(mws), [Invoke(hit.route.handler, req')]);
    InvocationsAppend(Befores(mws) + [Invoke(hit.route.handler, req')], AftersReversed(mws));
  }

  /** `handleRequest` returns true exactly when one handler ran, and then it ran once. */
  lemma DispatchInvokesOnce(nodes: seq<Node>, g: nat, req: Request)
    requires WellFormed(nodes) && g < |nodes|
    ensures Invocations(Dispatch(nodes, g, req).trace) == if Dispatch(nodes, g, req).handled then 1 else 0
  {
    var o, m := Dispatch(nodes, g, req), FirstMatch(Entries(nodes, g), req);
    DispatchFindsFirstMatch(nodes, g, req);
    if o.handled {
      var served := Serve(nodes, m.value, req);
      ServeInvokesOnce(nodes, m.value, req);
      NoInvocations(NotFounds(|o.trace| - |served|));
      InvocationsAppend(NotFounds(|o.trace| - |served|), served);
    } else {
      NoInvocations(o.trace);
    }
  }

  // ---------------------------------------------------------------------
  // The search as intended: a miss in one subgroup writes nothing
  // ---------------------------------------------------------------------

  /** The first route handleRequest selects, without its status writes. */
  function Find(nodes: seq<Node>, g: nat, req: Request): (r: Option<Hit>)
    requires WellFormed(nodes) && g < |nodes|
    decreases |nodes| - g, 1
  {
    match FirstMatch(OwnEntries(nodes, g), req)
    case Some(hit) => Some(hit)
    case None => FindInSubgroups(nodes, g, 0, req)
  }

  function FindInSubgroups(nodes: seq<Node>, g: nat, i: nat, req: Request): (r: Option<Hit>)
    requires WellFormed(nodes) && g < |nodes| && i <= |nodes[g].subgroups|
    decreases |nodes| - g, 0, |nodes[g].subgroups| - i
  {
    if i == |nodes[g].subgroups| then None
    else match Find(nodes, nodes[g].subgroups[i], req)
      case Some(hit) => Some(hit)
      case None => FindInSubgroups(nodes, g, i + 1, req)
  }

  /** The search finds the first match of the subtree in pre-order. */
  lemma {:induction false} FindIsFirstMatch(nodes: seq<Node>, g: nat, req: Request)
    requires WellFormed(nodes) && g < |nodes|
    ensures Find(nodes, g, req) == FirstMatch(Entries(nodes, g), req)
    decreases |nodes| - g, 1
  {
    SubtreeEntries(nodes, g);
    FirstMatchAppend(OwnEntries(nodes, g), EntriesOf(nodes, ChildrenNodes(nodes, g, 0)), req);
    if FirstMatch(OwnEntries(nodes, g), req).None? {
      FindInSubgroupsIsFirstMatch(nodes, g, 0, req);
    }
  }

  lemma {:induction false} FindInSubgroupsIsFirstMatch(nodes: seq<Node>, g: nat, i: nat, req: Request)
    requires WellFormed(nodes) && g < |nodes| && i <= |nodes[g].subgroups|
    ensures FindInSubgroups(nodes, g, i, req) == FirstMatch(EntriesOf(nodes, ChildrenNodes(nodes, g, i)), req)
    decreases |nodes| - g, 0, |nodes[g].subgroups| - i
  {
    if i < |nodes[g].subgroups| {
      var c := nodes[g].subgroups[i];
      ChildrenEntries(nodes, g, i);
      FirstMatchAppend(Entries(nodes, c), EntriesOf(nodes, ChildrenNodes(nodes, g, i + 1)), req);
      FindIsFirstMatch(nodes, c, req);
      FindInSubgroupsIsFirstMatch(nodes, g, i + 1, req);
    }
  }

  /** handleRequest as intended: the selected route is served, and 404 is written only when nothing matched. */
  function DispatchIntended(nodes: seq<Node>, g: nat, req: Request): Outcome
    requires WellFormed(nodes) && g < |nodes|
  {
    FindIsFirstMatch(nodes, g, req);
    match Find(nodes, g, req)
    case Some(hit) => Outcome(true, Serve(nodes, hit, req))
    case None => Outcome(false, [WriteHeader(STATUS_NOT_FOUND)])
  }

  /** Intended dispatch serves the first match with nothing written before it, or writes one 404. */
  lemma DispatchIntendedServesFirstMatch(nodes: seq<Node>, g: nat, req: Request)
    requires WellFormed(nodes) && g < |nodes|
    ensures Explains(nodes, DispatchIntended(nodes, g, req), FirstMatch(Entries(nodes, g), req), 1, req)
    ensures DispatchIntended(nodes, g, req).handled ==>
      DispatchIntended(nodes, g, req).trace == Serve(nodes, FirstMatch(Entries(nodes, g), req).value, req)
  {
    FindIsFirstMatch(nodes, g, req);
    assert NotFounds(0) == [] && NotFounds(1) == [WriteHeader(STATUS_NOT_FOUND)];
  }

  /** As written, dispatch selects the same route as intended, but may write 404s before serving it. */
  lemma DispatchAddsNotFounds(nodes: seq<Node>, g: nat, req: Request)
    requires WellFormed(nodes) && g < |nodes|
    ensures Dispatch(nodes, g, req).handled == DispatchIntended(nodes, g, req).handled
    ensures Dispatch(nodes, g, req).handled ==>
      var written, intended := Dispatch(nodes, g, req).trace, DispatchIntended(nodes, g, req).trace;
      |intended| <= |written| && written == NotFounds(|written| - |intended|) + intended
  {
    DispatchFindsFirstMatch(nodes, g, req);
    DispatchIntendedServesFirstMatch(nodes, g, req);
  }

  /**
    The status the router itself commits before control reaches middleware or
    the handler: the first status write, if any, ahead of the chain.
  */
  function RouterStatus(trace: seq<Event>): Option<int> {
    if trace == [] then None
    else match trace[0]
      case WriteHeader(status) => Some(status)
      case Before(_) => None
      case Invoke(_, _) => None
      case _ => RouterStatus(trace[1..])
  }

  /** Intended dispatch leaves the status of a handled request to the chain it runs. */
  lemma IntendedLeavesStatusToChain(nodes: seq<Node>, g: nat, req: Request)
    requires WellFormed(nodes) && g < |nodes|
    ensures DispatchIntended(nodes, g, req).handled ==> RouterStatus(DispatchIntended(nodes, g, req).trace) == None
  {
    DispatchIntendedServesFirstMatch(nodes, g, req);
    if DispatchIntended(nodes, g, req).handled {
      var hit := FirstMatch(Entries(nodes, g), req).value;
      var mws := CollectMiddlewares(nodes, hit.node);
      RunNested(mws, hit.route.handler, req.(params := Some(hit.params)));
    }
  }

  /** A route of two literal segments, as `Handle` registers it on the group with prefix "/p". */
  lemma LiteralPairRoute(p: string, q: string, httpMethod: string, handler: HandlerId)
    requires p != [] && q != [] && SlashFree(p) && SlashFree(q) && p[0] != ':' && q[0] != ':'
    ensures RouteFor(httpMethod, "/" + p, "/" + q, handler)
         == Route(httpMethod, Matcher("^/" + p + "/" + q + "$", [Lit(p), Lit(q)]), [], handler)
  {
    assert TrimRightSlashes("/" + p) == "/" + p;
    assert ("/" + q)[1..] == q;
    assert TrimLeftSlashes("/" + q) == q;
    assert FullPattern("/" + p, "/" + q) == "/" + p + "/" + q;
    LiteralPairCompile(p, q);
  }

  lemma LiteralPairCompile(p: string, q: string)
    requires p != [] && q != [] && SlashFree(p) && SlashFree(q) && p[0] != ':' && q[0] != ':'
    ensures Compile("/" + p + "/" + q) == (Matcher("^/" + p + "/" + q + "$", [Lit(p), Lit(q)]), [])
  {
    LiteralPairParts(p, q);
    LiteralPairText(p, q);
    CompileFromParts("/" + p + "/" + q, ["", p, q], [Lit(p), Lit(q)], [], "^/" + p + "/" + q + "$");
  }

  lemma LiteralPairParts(p: string, q: string)
    requires p != [] && q != [] && p[0] != ':' && q[0] != ':'
    ensures Segments(["", p, q]) == [Lit(p), Lit(q)] && ParamNames(["", p, q]) == []
  {
    EmptyPartStart();
    Snoc([""], p);
    Snoc(["", p], q);
    assert [""] + [p] == ["", p] && ["", p] + [q] == ["", p, q];
  }

  lemma LiteralPairText(p: string, q: string)
    ensures Join(["", p, q]) == "/" + p + "/" + q
    ensures "^/" + Join(Pieces([Lit(p), Lit(q)])) + "$" == "^/" + p + "/" + q + "$"
  {
    JoinThree([], p, q);
    assert [] + "/" + p + "/" + q == "/" + p + "/" + q;
    assert Pieces([Lit(p), Lit(q)]) == [p, q];
    assert [p, q][1..] == [q];
    assert Join([p, q]) == p + "/" + q;
    assert "^/" + (p + "/" + q) + "$" == "^/" + p + "/" + q + "$";
  }

  /** Two literal segments match exactly their own path, with no captures. */
  lemma LiteralPairMatch(p: string, q: string, path: string)
    requires SlashFree(p) && SlashFree(q) && !IsParamPart(p) && !IsParamPart(q)
    ensures Match([Lit(p), Lit(q)], path) == if path == "/" + p + "/" + q then Some([]) else None
  {
    var segs := [Lit(p), Lit(q)];
    LiteralPairFill(p, q);
    MatchIffAccepts(segs, path, []);
    var m := Match(segs, path);
    if m.Some? {
      MatchIffAccepts(segs, path, m.value);
    }
  }

  lemma LiteralPairFill(p: string, q: string)
    ensures ParamCount([Lit(p), Lit(q)]) == 0
    ensures "/" + Join(Fill([Lit(p), Lit(q)], [])) == "/" + p + "/" + q
  {
    var segs := [Lit(p), Lit(q)];
    assert segs[..|segs| - 1] == [Lit(p)];
    assert [Lit(p)][..0] == [];
    assert ParamCount([Lit(p)]) == 0;
    assert Fill([Lit(p)], []) == [p];
    assert Fill(segs, []) == [p, q];
    assert [p, q][1..] == [q];
    assert Join([p, q]) == p + "/" + q;
  }

  // ---------------------------------------------------------------------
  // A miss in one subgroup commits 404 before a later sibling serves
  // ---------------------------------------------------------------------

  /** A root with two subgroups, each holding one route, registered in that order. */
  function TwoSubgroups(prefixA: string, prefixB: string, routeA: Route, routeB: Route): seq<Node> {
    [ Node("", [], [], [1, 2], None),
      Node(prefixA, [], [routeA], [], Some(0)),
      Node(prefixB, [], [routeB], [], Some(0)) ]
  }

  /** The tree is what `Group`, `Group` and two `Handle` calls build from an empty root. */
  lemma TwoSubgroupsRegistered(prefixA: string, prefixB: string, routeA: Route, routeB: Route)
    requires RouteOk(routeA) && RouteOk(routeB)
    ensures TwoSubgroups(prefixA, prefixB, routeA, routeB) == AddRoute(AddRoute(
      AddSubgroup(AddSubgroup([EmptyGroup("", None)], 0, prefixA), 0, prefixB), 1, routeA), 2, routeB)
    ensures WellFormed(TwoSubgroups(prefixA, prefixB, routeA, routeB))
  {
    var t0 := [EmptyGroup("", None)];
    var t1 := AddSubgroup(t0, 0, prefixA);
    assert "" + prefixA == prefixA && "" + prefixB == prefixB && [] + [1] == [1] && [1] + [2] == [1, 2];
    assert [] + [routeA] == [routeA] && [] + [routeB] == [routeB];
    assert t1 == [Node("", [], [], [1], None), Node(prefixA, [], [], [], Some(0))];
    var t2 := AddSubgroup(t1, 0, prefixB);
    assert t2 == [Node("", [], [], [1, 2], None), Node(prefixA, [], [], [], Some(0)), Node(prefixB, [], [], [], Some(0))];
    var t3 := AddRoute(t2, 1, routeA);
    assert t3 == [Node("", [], [], [1, 2], None), Node(prefixA, [], [routeA], [], Some(0)), Node(prefixB, [], [], [], Some(0))];
    var t4 := AddRoute(t3, 2, routeB);
    assert t4 == TwoSubgroups(prefixA, prefixB, routeA, routeB);
    AddSubgroupWellFormed(t0, 0, prefixA);
    AddSubgroupWellFormed(t1, 0, prefixB);
    AddRouteWellFormed(t2, 1, routeA);
    AddRouteWellFormed(t3, 2, routeB);
  }

  /** The entries and the middleware of the two-subgroup tree. */
  lemma TwoSubgroupsParts(prefixA: string, prefixB: string, routeA: Route, routeB: Route)
    requires RouteOk(routeA) && RouteOk(routeB)
    ensures WellFormed(TwoSubgroups(prefixA, prefixB, routeA, routeB))
    ensures var nodes := TwoSubgroups(prefixA, prefixB, routeA, routeB);
      && OwnEntries(nodes, 0) == [] && OwnEntries(nodes, 1) == [Entry(1, routeA)]
      && OwnEntries(nodes, 2) == [Entry(2, routeB)] && CollectMiddlewares(nodes, 2) == []
  {
    TwoSubgroupsRegistered(prefixA, prefixB, routeA, routeB);
  }

  /** As written: the miss in the first subgroup writes 404, then the second serves. */
  lemma SiblingMissAsWritten(prefixA: string, prefixB: string, routeA: Route, routeB: Route, req: Request)
    requires RouteOk(routeA) && RouteOk(routeB)
    requires RouteMatches(routeA, req).None? && RouteMatches(routeB, req).Some?
    ensures WellFormed(TwoSubgroups(prefixA, prefixB, routeA, routeB))
    ensures Dispatch(TwoSubgroups(prefixA, prefixB, routeA, routeB), 0, req)
         == Outcome(true, [WriteHeader(STATUS_NOT_FOUND), Invoke(routeB.handler, req.(params := Some(RouteMatches(routeB, req).value)))])
  {
    TwoSubgroupsParts(prefixA, prefixB, routeA, routeB);
    var nodes := TwoSubgroups(prefixA, prefixB, routeA, routeB);
    var hit := Hit(2, routeB, RouteMatches(routeB, req).value);
    assert FirstMatch([Entry(1, routeA)], req) == None;
    assert FirstMatch([Entry(2, routeB)], req) == Some(hit);
    assert Serve(nodes, hit, req) == [Invoke(routeB.handler, req.(params := Some(RouteMatches(routeB, req).value)))];
    assert Dispatch(nodes, 1, req) == Outcome(false, [WriteHeader(STATUS_NOT_FOUND)]);
    assert Dispatch(nodes, 2, req) == Outcome(true, Serve(nodes, hit, req));
    assert DispatchSubgroups(nodes, 0, 1, req) == Dispatch(nodes, 2, req);
    assert DispatchSubgroups(nodes, 0, 0, req).trace == [WriteHeader(STATUS_NOT_FOUND)] + Serve(nodes, hit, req);
  }

  /** As intended: nothing is written before the second subgroup serves. */
  lemma SiblingMissIntended(prefixA: string, prefixB: string, routeA: Route, routeB: Route, req: Request)
    requires RouteOk(routeA) && RouteOk(routeB)
    requires RouteMatches(routeA, req).None? && RouteMatches(routeB, req).Some?
    ensures WellFormed(TwoSubgroups(prefixA, prefixB, routeA, routeB))
    ensures DispatchIntended(TwoSubgroups(prefixA, prefixB, routeA, routeB), 0, req)
         == Outcome(true, [Invoke(routeB.handler, req.(params := Some(RouteMatches(routeB, req).value)))])
  {
    TwoSubgroupsParts(prefixA, prefixB, routeA, routeB);
    var nodes := TwoSubgroups(prefixA, prefixB, routeA, routeB);
    var hit := Hit(2, routeB, RouteMatches(routeB, req).value);
    assert FirstMatch([Entry(1, routeA)], req) == None;
    assert FirstMatch([Entry(2, routeB)], req) == Some(hit);
    assert Find(nodes, 1, req) == None;
    assert Find(nodes, 2, req) == Some(hit);
    assert FindInSubgroups(nodes, 0, 1, req) == Some(hit);
    assert Find(nodes, 0, req) == Some(hit);
    assert Serve(nodes, hit, req) == [Invoke(routeB.handler, req.(params := Some(RouteMatches(routeB, req).value)))];
  }

  /**
    When the first subgroup's route misses and the second's matches, the
    request is served by the second, but the first has already written 404;
    the first status write wins, so the response carries 404. Intended
    dispatch commits no status before the chain.
  */
  lemma SiblingMissCommitsNotFound(prefixA: string, prefixB: string, routeA: Route, routeB: Route, req: Request)
    requires RouteOk(routeA) && RouteOk(routeB)
    requires RouteMatches(routeA, req).None? && RouteMatches(routeB, req).Some?
    ensures WellFormed(TwoSubgroups(prefixA, prefixB, routeA, routeB))
    ensures Dispatch(TwoSubgroups(prefixA, prefixB, routeA, routeB), 0, req).handled
    ensures RouterStatus(Dispatch(TwoSubgroups(prefixA, prefixB, routeA, routeB), 0, req).trace) == Some(STATUS_NOT_FOUND)
    ensures DispatchIntended(TwoSubgroups(prefixA, prefixB, routeA, routeB), 0, req).handled
    ensures RouterStatus(DispatchIntended(TwoSubgroups(prefixA, prefixB, routeA, routeB), 0, req).trace) == None
  {
    SiblingMissAsWritten(prefixA, prefixB, routeA, routeB, req);
    SiblingMissIntended(prefixA, prefixB, routeA, routeB, req);
  }

  /** The route `GET("/x", 1)` registers on the group with prefix "/a". */
  lemma ExampleRouteA()
    ensures RouteFor("GET", "/a", "/x", 1) == Route("GET", Matcher("^/a/x$", [Lit("a"), Lit("x")]), [], 1)
  {
    LiteralPairRoute("a", "x", "GET", 1);
    assert "/" + "a" == "/a" && "/" + "x" == "/x" && "^/" + "a" + "/" + "x" + "$" == "^/a/x$";
  }

  /** The route `GET("/y", 2)` registers on the group with prefix "/b". */
  lemma ExampleRouteB()
    ensures RouteFor("GET", "/b", "/y", 2) == Route("GET", Matcher("^/b/y$", [Lit("b"), Lit("y")]), [], 2)
  {
    LiteralPairRoute("b", "y", "GET", 2);
    assert "/" + "b" == "/b" && "/" + "y" == "/y" && "^/" + "b" + "/" + "y" + "$" == "^/b/y$";
  }

  /** GET "/b/y" misses the route for "/a/x" and matches the route for "/b/y". */
  lemma ExampleMatches()
    ensures RouteOk(Route("GET", Matcher("^/a/x$", [Lit("a"), Lit("x")]), [], 1))
    ensures RouteOk(Route("GET", Matcher("^/b/y$", [Lit("b"), Lit("y")]), [], 2))
    ensures RouteMatches(Route("GET", Matcher("^/a/x$", [Lit("a"), Lit("x")]), [], 1), Request("GET", "/b/y", None)).None?
    ensures RouteMatches(Route("GET", Matcher("^/b/y$", [Lit("b"), Lit("y")]), [], 2), Request("GET", "/b/y", None)).Some?
  {
    ExampleRoutesOk();
    ExamplePath();
    LiteralPairMatch("a", "x", "/b/y");
    LiteralPairMatch("b", "y", "/b/y");
  }

  lemma ExampleRoutesOk()
    ensures RouteOk(Route("GET", Matcher("^/a/x$", [Lit("a"), Lit("x")]), [], 1))
    ensures RouteOk(Route("GET", Matcher("^/b/y$", [Lit("b"), Lit("y")]), [], 2))
  {
    assert [Lit("a"), Lit("x")][..1] == [Lit("a")] && [Lit("b"), Lit("y")][..1] == [Lit("b")];
    assert [Lit("a")][..0] == [] && [Lit("b")][..0] == [];
  }

  lemma ExamplePath()
    ensures "/b/y" == "/" + "b" + "/" + "y"
    ensures "/b/y" != "/" + "a" + "/" + "x"
  {
    assert ("/" + "a" + "/" + "x")[1] == 'a';
  }


  /**
    The smallest instance: subgroups "/a" with GET "/x" and "/b" with GET
    "/y"; GET "/b/y" runs handler 2 with status 404 already committed.
  */
  lemma SiblingMissExample()
    ensures RouteFor("GET", "/a", "/x", 1) == Route("GET", Matcher("^/a/x$", [Lit("a"), Lit("x")]), [], 1)
    ensures RouteFor("GET", "/b", "/y", 2) == Route("GET", Matcher("^/b/y$", [Lit("b"), Lit("y")]), [], 2)
    ensures var nodes := TwoSubgroups("/a", "/b",
        Route("GET", Matcher("^/a/x$", [Lit("a"), Lit("x")]), [], 1),
        Route("GET", Matcher("^/b/y$", [Lit("b"), Lit("y")]), [], 2));
      && WellFormed(nodes)
      && Dispatch(nodes, 0, Request("GET", "/b/y", None)).handled
      && RouterStatus(Dispatch(nodes, 0, Request("GET", "/b/y", None)).trace) == Some(STATUS_NOT_FOUND)
  {
    ExampleRouteA();
    ExampleRouteB();
    ExampleMatches();
    SiblingMissCommitsNotFound("/a", "/b",
      Route("GET", Matcher("^/a/x$", [Lit("a"), Lit("x")]), [], 1),
      Route("GET", Matcher("^/b/y$", [Lit("b"), Lit("y")]), [], 2),
      Request("GET", "/b/y", None));
  }
}

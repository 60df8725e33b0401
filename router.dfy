/**
  router.go: the router is its root group, and its HTTP entry point falls
  back to the standard not-found response when the root's search reports
  that nothing matched.
*/
module Router {
  import opened Wrappers
  import opened Paths
  import opened Routes
  import opened Groups

  /** The body `http.NotFound` writes after its status. */
  const NOT_FOUND_BODY: string := "404 page not found\n"

  /** `http.NotFound`: status 404, then the standard body. */
  function NotFoundResponse(): seq<Event> {
    [WriteHeader(STATUS_NOT_FOUND), WriteBody(NOT_FOUND_BODY)]
  }

  /** What `ServerHTTP` writes: the root's search, then the not-found response if it found nothing. */
  function ServeTrace(nodes: seq<Node>, req: Request): seq<Event>
    requires WellFormed(nodes)
  {
    var o := Dispatch(nodes, 0, req);
    if o.handled then o.trace else o.trace + NotFoundResponse()
  }

  /** The same entry point over the corrected search, which writes no 404 on a subgroup's miss. */
  function ServeTraceIntended(nodes: seq<Node>, req: Request): seq<Event>
    requires WellFormed(nodes)
  {
    var o := DispatchIntended(nodes, 0, req);
    if o.handled then o.trace else o.trace + NotFoundResponse()
  }

  /** `NewRouter`: a root group with empty prefix, no parent, and no middleware, routes or subgroups. */
  method NewRouter() returns (router: Tree)
    ensures fresh(router) && router.Valid()
    ensures router.nodes == [Node("", [], [], [], None)]
  {
    router := new Tree();
  }

  /** `ServerHTTP`: delegates to the root's `handleRequest` and adds the not-found response on a miss. */
  method ServerHTTP(router: Tree, req: Request) returns (trace: seq<Event>)
    requires router.Valid()
    ensures trace == ServeTrace(router.nodes, req)
  {
    var handled, written := router.HandleRequest(0, req);
    trace := written;
    if !handled {
      trace := trace + NotFoundResponse();
    }
  }

  /** The root's subtree is the whole router. */
  lemma RootEntries(nodes: seq<Node>, req: Request)
    requires WellFormed(nodes)
    ensures Explains(nodes, Dispatch(nodes, 0, req), FirstMatch(Entries(nodes, 0), req), |SubtreeNodes(nodes, 0)|, req)
  {
    DispatchFindsFirstMatch(nodes, 0, req);
  }

  /**
    When no route matches, every group has written 404, then the standard
    not-found response follows; no middleware or handler runs.
  */
  lemma ServeUnmatched(nodes: seq<Node>, req: Request)
    requires WellFormed(nodes) && FirstMatch(Entries(nodes, 0), req).None?
    ensures ServeTrace(nodes, req) == NotFounds(|SubtreeNodes(nodes, 0)|) + NotFoundResponse()
    ensures Invocations(ServeTrace(nodes, req)) == 0
    ensures RouterStatus(ServeTrace(nodes, req)) == Some(STATUS_NOT_FOUND)
    ensures ServeTrace(nodes, req)[|ServeTrace(nodes, req)| - 1] == WriteBody(NOT_FOUND_BODY)
  {
    RootEntries(nodes, req);
    var trace := ServeTrace(nodes, req);
    assert forall k :: 0 <= k < |trace| ==> !trace[k].Invoke?;
    NoInvocations(trace);
  }

  /**
    When a route matches, its wrapped handler runs once, after nothing but
    404 writes, and no not-found body is written: the handler's output stands.
  */
  lemma ServeMatched(nodes: seq<Node>, req: Request)
    requires WellFormed(nodes) && FirstMatch(Entries(nodes, 0), req).Some?
    ensures var hit := FirstMatch(Entries(nodes, 0), req).value;
      && hit.node < |nodes|
      && |Serve(nodes, hit, req)| <= |ServeTrace(nodes, req)|
      && ServeTrace(nodes, req)
         == NotFounds(|ServeTrace(nodes, req)| - |Serve(nodes, hit, req)|) + Serve(nodes, hit, req)
    ensures Invocations(ServeTrace(nodes, req)) == 1
    ensures WriteBody(NOT_FOUND_BODY) !in ServeTrace(nodes, req)
  {
    RootEntries(nodes, req);
    DispatchInvokesOnce(nodes, 0, req);
    var hit := FirstMatch(Entries(nodes, 0), req).value;
    var served := Serve(nodes, hit, req);
    ServeWritesNoBody(nodes, hit, req);
    NoBodyAfterNotFounds(|ServeTrace(nodes, req)| - |served|, served);
  }

  /** Serving a route writes no body of the router's own: only middleware and handler events. */
  lemma ServeWritesNoBody(nodes: seq<Node>, hit: Hit, req: Request)
    requires WellFormed(nodes) && hit.node < |nodes|
    ensures forall k :: 0 <= k < |Serve(nodes, hit, req)| ==> !Serve(nodes, hit, req)[k].WriteBody?
  {
    var mws := CollectMiddlewares(nodes, hit.node);
    RunNested(mws, hit.route.handler, req.(params := Some(hit.params)));
  }

  lemma NoBodyAfterNotFounds(n: nat, served: seq<Event>)
    requires forall k :: 0 <= k < |served| ==> !served[k].WriteBody?
    ensures WriteBody(NOT_FOUND_BODY) !in NotFounds(n) + served
  {
    var trace := NotFounds(n) + served;
    assert forall k :: 0 <= k < |trace| ==> !trace[k].WriteBody?;
  }

  /** `ServerHTTP` leaves matching to the root: what it writes starts with exactly what the root's search wrote. */
  lemma ServeDelegates(nodes: seq<Node>, req: Request)
    requires WellFormed(nodes)
    ensures Dispatch(nodes, 0, req).trace <= ServeTrace(nodes, req)
    ensures |ServeTrace(nodes, req)| - |Dispatch(nodes, 0, req).trace| == if Dispatch(nodes, 0, req).handled then 0 else 2
  {
  }

  /**
    With the corrected search, a matched route's chain is all that is
    written, and a miss writes one 404 before the not-found response.
  */
  lemma ServeIntended(nodes: seq<Node>, req: Request)
    requires WellFormed(nodes)
    ensures FirstMatch(Entries(nodes, 0), req).Some? ==>
      && FirstMatch(Entries(nodes, 0), req).value.node < |nodes|
      && ServeTraceIntended(nodes, req) == Serve(nodes, FirstMatch(Entries(nodes, 0), req).value, req)
      && RouterStatus(ServeTraceIntended(nodes, req)) == None
    ensures FirstMatch(Entries(nodes, 0), req).None? ==>
      ServeTraceIntended(nodes, req) == [WriteHeader(STATUS_NOT_FOUND)] + NotFoundResponse()
  {
    DispatchIntendedServesFirstMatch(nodes, 0, req);
    IntendedLeavesStatusToChain(nodes, 0, req);
    assert NotFounds(1) == [WriteHeader(STATUS_NOT_FOUND)];
  }

  // ---------------------------------------------------------------------
  // A root with one route, GET "/test"
  // ---------------------------------------------------------------------

  /** One literal segment matches exactly its own path, with no captures. */
  lemma LiteralMatch(p: string, path: string)
    requires SlashFree(p) && !IsParamPart(p)
    ensures Match([Lit(p)], path) == if path == "/" + p then Some([]) else None
  {
    var segs := [Lit(p)];
    assert segs[..0] == [] && ParamCount(segs) == 0;
    assert Fill(segs, []) == [p];
    MatchIffAccepts(segs, path, []);
    var m := Match(segs, path);
    if m.Some? {
      MatchIffAccepts(segs, path, m.value);
    }
  }

  function TestRoute(): Route {
    Route("GET", Matcher("^/test$", [Lit("test")]), [], 1)
  }

  function TestRouter(): seq<Node> {
    [Node("", [], [TestRoute()], [], None)]
  }

  lemma TestRouterParts()
    ensures WellFormed(TestRouter())
    ensures OwnEntries(TestRouter(), 0) == [Entry(0, TestRoute())]
    ensures CollectMiddlewares(TestRouter(), 0) == []
  {
    assert [Lit("test")][..0] == [];
  }

  /** GET "/test" runs the route's handler and nothing else is written. */
  lemma TestRouteServed()
    ensures WellFormed(TestRouter())
    ensures ServeTrace(TestRouter(), Request("GET", "/test", None))
         == [Invoke(1, Request("GET", "/test", Some(map[])))]
  {
    TestRouterParts();
    var req := Request("GET", "/test", None);
    TestRouteMatches();
    assert FirstMatch([Entry(0, TestRoute())], req) == Some(Hit(0, TestRoute(), map[]));
    assert Serve(TestRouter(), Hit(0, TestRoute(), map[]), req) == [Invoke(1, req.(params := Some(map[])))];
  }

  lemma TestRouteMatches()
    ensures RouteOk(TestRoute())
    ensures RouteMatches(TestRoute(), Request("GET", "/test", None)) == Some(map[])
  {
    assert [Lit("test")][..0] == [];
    LiteralMatch("test", "/test");
    assert "/test" == "/" + "test";
    assert Bind([], []) == map[];
  }

  /** GET "/invalid" gets 404 from the root's search, then the standard not-found response. */
  lemma InvalidRouteNotFound()
    ensures WellFormed(TestRouter())
    ensures ServeTrace(TestRouter(), Request("GET", "/invalid", None))
         == [WriteHeader(STATUS_NOT_FOUND), WriteHeader(STATUS_NOT_FOUND), WriteBody(NOT_FOUND_BODY)]
  {
    TestRouterParts();
    var req := Request("GET", "/invalid", None);
    LiteralMatch("test", "/invalid");
    assert "/invalid" != "/" + "test" by {
      assert ("/" + "test")[1] == 't';
    }
    assert RouteMatches(TestRoute(), req) == None;
    assert FirstMatch([Entry(0, TestRoute())], req) == None;
  }
}

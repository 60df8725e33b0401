# goapi routing core in Dafny

This project models the routing engine of the `goapi` HTTP router and proves
properties of it. It has four parts.

- **Pattern compiler** (`route.go`). `parsePattern` splits a URL pattern on
  `/` and skips empty parts. It turns each `:name` part into a capture group
  `([^/]+)` and records the name, and copies every other part literally. It
  joins the results under `^/ … $`. The model keeps two things side by side:
  the emitted expression text and a structural matcher over the same
  segments. It proves what the structural matcher accepts and what it
  captures.
- **Group tree** (`group.go`). Groups carry a full prefix, their own
  middleware, their routes, their subgroups and a parent link. `Tree` is a
  class whose `nodes` field is an arena of groups; a group is named by its
  index. `Group`, `Use`, `Handle` and the seven method shortcuts change that
  arena in place, and each keeps the tree well formed.
- **Dispatcher** (`group.go`). `handleRequest` tries the group's own routes
  in registration order. The first route whose method and pattern match
  binds its parameters, is wrapped in the middleware collected from the root
  down, and is invoked. Otherwise the subgroups are tried in order, and a
  group that finds nothing writes status 404. Everything dispatching writes
  to the response is recorded as a trace of events.
- **Router** (`router.go`). `NewRouter` makes an empty root group.
  `ServerHTTP` calls the root's search and falls back to `http.NotFound`.

The reference semantics of the search is `Groups.Entries`. It lists every
(group, route) pair of a subtree in search order: a group's own routes
first, then each subgroup's subtree in turn. `Groups.FirstMatch` picks the
first pair that matches. The main theorem, `Groups.DispatchFindsFirstMatch`,
says three things about `handleRequest`:

- it reports success exactly when some route of the subtree matches;
- when it succeeds, it serves the first matching route, and only 404 writes
  come before it;
- when it fails, it writes 404 once for every group of the subtree.

The 404 writes before a successful serve are the finding reported below.

Modules: `Wrappers` (Option), `Paths` (Go's `strings.Split`, `Join`,
`TrimLeft` and `TrimRight` on `/`), `Routes` (route.go), `Groups`
(group.go), `Router` (router.go).

## Model

| member | source | states |
|---|---|---|
| Paths.Split | route.go:34 | `strings.Split(s, "/")`, empty pieces included; never empty; what it means is stated by `JoinSplit`, `SplitJoin` and `SplitAround` |
| Paths.Join | route.go:51 | `strings.Join(parts, "/")`; `JoinSplit` and `SplitJoin` prove it inverts `Split` |
| Paths.JoinSplit | route.go:34 | joining the pieces of `strings.Split(s, "/")` with `/` gives back `s` |
| Paths.SplitJoin | route.go:51 | splitting a join of slash-free parts gives back the parts |
| Paths.SplitAround | route.go:34 | splitting `a + "/" + b` gives the pieces of `a` followed by the pieces of `b` |
| Paths.SplitSlashFree | route.go:34 | a string without `/` splits into itself alone |
| Paths.SplitPiecesSlashFree | route.go:34 | no piece of a split contains `/` |
| Paths.TrimLeftSlashes | group.go:77 | the result is a suffix of the input, everything cut off is `/`, and the result does not start with `/` |
| Paths.TrimRightSlashes | group.go:77 | the result is a prefix of the input, everything cut off is `/`, and the result does not end with `/` |
| Routes.Compile | route.go:33-53 | the definition of what `parsePattern` returns: expression text, segments and names of the split parts; see `NamesMatchCaptures`, `CompileConcat`, `CompileLeadingSlash` and the `ParsePattern*` test lemmas |
| Routes.ParsePattern | route.go:33-53 | the loop over the split parts returns the anchored expression text, the segments and the parameter names that `Compile` defines |
| Routes.NamesMatchCaptures | route.go:43-46 | a compiled pattern records exactly one name per capture group |
| Routes.CompiledRouteOk | route.go:43-48 | every compiled route has one name per capture group and no `/` inside a literal segment |
| Routes.SegmentsLiteralsSlashFree | route.go:47-48 | literal segments come from split parts, so they are non-empty and hold no `/` |
| Routes.CompileRoot | route.go:51 | the patterns `""` and `"/"` both compile to `^/$` with no parameters |
| Routes.CompileConcat | route.go:34-50 | compiling `a + "/" + b` gives the segments and names of `a` followed by those of `b` |
| Routes.CompileLeadingSlash | route.go:39-41 | a leading `/` does not change the compiled pattern |
| Routes.CompileTrailingSlash | route.go:39-41 | a trailing `/` does not change the compiled pattern |
| Routes.CompileDoubledSlash | route.go:39-41 | a doubled `/` compiles the same as a single one |
| Routes.SegmentsAppend | route.go:38-50 | the segments of concatenated part lists are the concatenation of their segments |
| Routes.ParamNamesAppend | route.go:43-46 | the names of concatenated part lists are the concatenation of their names |
| Routes.ParamCountAppend | route.go:46 | the capture count is additive over concatenation |
| Routes.Fill | route.go:46-48 | filling a template with one value per capture gives one path piece per segment |
| Routes.MatchPieces | route.go:46-48 | a successful match returns one value per capture group |
| Routes.Match | route.go:51 | a successful match of a path returns one value per capture group |
| Routes.MatchPiecesSound | group.go:210 | a successful piece match rebuilds the pieces exactly, and every capture is a non-empty piece |
| Routes.MatchPiecesComplete | group.go:210 | any non-empty captures filled into the template are found again by the matcher |
| Routes.FillSlashFree | route.go:46 | with slash-free literals and captures, every filled piece is slash-free |
| Routes.MatchIffAccepts | group.go:210-211 | the matcher returns `caps` exactly when the path is `/` + the template filled with non-empty, slash-free `caps`, which is what `^/…$` with `([^/]+)` groups accepts |
| Routes.AcceptsDeterministic | group.go:210 | a path is accepted with at most one list of captures |
| Routes.FillLiterals | route.go:47-48 | a pattern without parameters fills to its non-empty parts |
| Routes.LiteralTemplateMatchesOnlyItself | route.go:47-51 | a pattern without parameters matches exactly one path: `/` + its non-empty parts joined by `/` |
| Routes.ParsePatternUsersId | route_test.go:11-15 | `/users/:id` compiles to `^/users/([^/]+)$` with names `[id]` |
| Routes.ParsePatternProducts | route_test.go:16-20 | `/products/:category/:id` compiles to `^/products/([^/]+)/([^/]+)$` with names `[category, id]` |
| Routes.ParsePatternStaticFiles | route_test.go:21-25 | `/static/files` compiles to `^/static/files$` with no names |
| Routes.ParsePatternAllParams | route_test.go:26-30 | `/:entity/:action/:id` compiles to three capture groups with names `[entity, action, id]` |
| Routes.LiteralThenParamAccepts | route_test.go:59-67 | a literal-then-parameter template matches `/lit/value` for any non-empty slash-free value and captures it |
| Routes.UsersIdAccepts | route_test.go:63-67 | `^/users/([^/]+)$` matches `/users/123` and captures `123` |
| Routes.UsersIdRejectsShorterPath | route_test.go:69-72 | `^/users/([^/]+)$` does not match `/users` |
| Routes.DuplicateNamesKept | route.go:44-45 | a repeated parameter name is recorded twice, in order |
| Groups.Tree.constructor | router.go:15-23 | a new tree holds one empty root group without a parent |
| Groups.Tree.Group | group.go:27-37 | the new group is appended with prefix = parent prefix + prefix and a link to its parent; it is last among the parent's subgroups; nothing else changes; the tree stays well formed |
| Groups.Tree.Use | group.go:55-57 | the middleware is appended to the group's own list and nothing else changes; the tree stays well formed |
| Groups.Tree.Handle | group.go:76-85 | the group gets one more route, last, built from the method, the compiled full pattern and the handler; nothing else changes; the tree stays well formed |
| Groups.Tree.GET | group.go:103-105 | `Handle` with method `GET` |
| Groups.Tree.POST | group.go:117-119 | `Handle` with method `POST` |
| Groups.Tree.PUT | group.go:131-133 | `Handle` with method `PUT` |
| Groups.Tree.DELETE | group.go:145-147 | `Handle` with method `DELETE` |
| Groups.Tree.PATCH | group.go:159-161 | `Handle` with method `PATCH` |
| Groups.Tree.HEAD | group.go:173-175 | `Handle` with method `HEAD` |
| Groups.Tree.OPTIONS | group.go:187-189 | `Handle` with method `OPTIONS` |
| Groups.Tree.HandleRequest | group.go:204-239 | the result and the writes equal the recursive `Dispatch`, which `DispatchFindsFirstMatch` relates to the first match |
| Groups.Tree.ServeOwnRoutes | group.go:205-230 | a route is found exactly when one of the group's own routes matches; the first one is served inside its middleware chain; when none matches nothing is written |
| Groups.Tree.HandleSubgroups | group.go:232-238 | the subgroup loop stops at the first subgroup that handles the request, keeps every earlier subgroup's 404 writes, and writes 404 itself when none handles it |
| Groups.AddSubgroup | group.go:27-37 | the arena after `Group`: one new empty group with the concatenated prefix and a parent link, last among the parent's subgroups; see `AddSubgroupWellFormed` |
| Groups.AddMiddleware | group.go:55-57 | the arena after `Use`: only the group's own middleware list grows; see `UseScope`, `UseOutsideScope` and `UseKeepsEntries` |
| Groups.AddRoute | group.go:79-84 | the arena after `Handle`: only the group's route list grows by one route, last; see `AddRouteWellFormed` |
| Groups.FullPattern | group.go:77 | the prefix without trailing `/`, one `/`, the pattern without leading `/`; see `FullPatternCompiles` and `RootFullPattern` |
| Groups.RouteFor | group.go:77-84 | the route `Handle` appends: the method, the compiled full pattern and its names, the handler; see `ProductsRegistered` and `LiteralPairRoute` |
| Groups.RouteMatches | group.go:205-215 | a route's verdict on a request: equal method and a match of the whole path give the parameter map; see `RouteSelectedIff` and `RouteParams` |
| Groups.Bind | group.go:212-215 | the parameter map, name i bound to capture i with later names overriding earlier ones; see `BindKeys` and `BindValues` |
| Groups.CollectMiddlewares | group.go:249-257 | the ancestors' middleware from the root down, then the group's own; see `CollectPrefix`, `UseScope` and `UseOutsideScope` |
| Groups.Nest | group.go:222-225 | the handler wrapped by the middleware, the first one outermost; see `Wrap` and `RunNested` |
| Groups.Run | group.go:227 | what invoking a wrapped handler records; see `RunNested` |
| Groups.Serve | group.go:217-227 | what serving a matched route records: its collected chain run on the request with the parameter map attached; see `ServeInvokesOnce` and `NestedMiddlewareOrder` |
| Groups.Dispatch | group.go:204-239 | the reference for `handleRequest`: own routes first, then the subgroup loop; see `DispatchFindsFirstMatch` and `DispatchInvokesOnce` |
| Groups.DispatchSubgroups | group.go:232-238 | the reference for the subgroup loop from position i, ending in the group's own 404; see `DispatchSubgroupsFindsFirstMatch` |
| Groups.BindParams | group.go:212-215 | the loop builds the map `Bind(names, values)` |
| Groups.BindKeys | group.go:212-215 | the keys of the parameter map are exactly the parameter names |
| Groups.BindValues | group.go:212-215 | each name maps to the capture at its last occurrence |
| Groups.Wrap | group.go:222-225 | wrapping from the last middleware to the first gives the chain with the first middleware outermost |
| Groups.RunNested | group.go:222-227 | running the chain performs every middleware's before-work in order, invokes the handler once, then every after-work in reverse |
| Groups.NestedMiddlewareOrder | group.go:249-257 | root middleware `m1` and child middleware `m2` run as `m1`, `m2`, handler, `m2`, `m1` |
| Groups.ChildMiddlewareOnly | group_test.go:104-108 | a subgroup's middleware with none on the root runs its before-work, the handler, then its after-work |
| Groups.CollectPrefix | group.go:249-257 | an ancestor's collected middleware is a prefix of its descendant's |
| Groups.UseScope | group.go:55-57 | `Use` on an ancestor inserts the new middleware right after that ancestor's collected list in every descendant's chain |
| Groups.UseScopeAtGroup | group.go:249-257 | after `Use` on a group, its collected middleware ends with the new middleware |
| Groups.UseOutsideScope | group.go:249-257 | `Use` on a group that is not an ancestor leaves a group's collected middleware unchanged |
| Groups.UseKeepsEntries | group.go:55-57 | `Use` does not change which routes are searched, or in what order |
| Groups.AddSubgroupWellFormed | group.go:27-37 | adding a subgroup keeps the arena a well-formed tree |
| Groups.AddMiddlewareWellFormed | group.go:55-57 | adding middleware keeps the arena well formed |
| Groups.AddRouteWellFormed | group.go:79-84 | adding a compiled route keeps the arena well formed |
| Groups.FullPatternCompiles | group.go:77 | the full pattern compiles to the prefix's segments and names followed by the pattern's, whatever slashes join them |
| Groups.RootFullPattern | group.go:77 | under the root's empty prefix, a pattern with exactly one leading `/` is kept as it is |
| Groups.RouteSelectedIff | group.go:206-211 | a route is selected exactly when the method is equal and the path is accepted by its pattern |
| Groups.RouteParams | group.go:212-215 | a selected route's parameter map binds its names to the captures |
| Groups.LiteralThenTwoParamsAccepts | group.go:210 | a literal-then-two-parameters template captures both values |
| Groups.BindTwo | group.go:212-215 | two names bound to two values give the two-entry map |
| Groups.ProductsRegistered | group.go:77-84 | registering `GET /products/:category/:id` on the root builds the products route |
| Groups.ProductsParams | group.go:208-215 | `GET /products/books/7` selects that route with parameters `category=books`, `id=7` |
| Groups.FirstMatchAt | group.go:205-229 | when entry `i` matches and no earlier one does, entry `i` is the first match |
| Groups.FirstMatchIsEarliest | group.go:205-229 | a first match is at some index with no matching entry before it |
| Groups.FirstMatchAppend | group.go:232-236 | the first match in `a + b` is the first in `a`, or else the first in `b` |
| Groups.EntriesOfAppend | group.go:232 | the search order of concatenated group lists is the concatenation of their search orders |
| Groups.SubtreeEntries | group.go:204-236 | a group's search order is its own routes, then its subgroups' |
| Groups.ChildrenEntries | group.go:232 | subgroups are searched in registration order |
| Groups.DispatchFindsFirstMatch | group.go:204-239 | handled exactly when some route of the subtree matches; then the first match in search order is served, after only 404 writes; otherwise one 404 per group of the subtree |
| Groups.DispatchSubgroupsFindsFirstMatch | group.go:232-238 | the same statement for the subgroup loop from any position |
| Groups.MissThenOutcome | group.go:233-237 | a subgroup's 404 writes stay in front of whatever the later subgroups write |
| Groups.SubgroupsStep | group.go:232-236 | one step of the subgroup loop: stop on success, or keep the writes and go on |
| Groups.NotFoundsAdd | group.go:237 | 404 writes from consecutive groups add up |
| Groups.ServeInvokesOnce | group.go:227 | serving a route invokes exactly one handler |
| Groups.DispatchInvokesOnce | group.go:227-228 | a search invokes one handler when it reports success and none otherwise |
| Groups.InvocationsAppend | group.go:227 | handler invocations add up over concatenated traces |
| Groups.FindIsFirstMatch | group.go:204-236 | the corrected search, which writes nothing while looking, finds the first match in search order |
| Groups.FindInSubgroupsIsFirstMatch | group.go:232-236 | the corrected subgroup search finds the first match among the subgroups |
| Groups.DispatchIntendedServesFirstMatch | group.go:204-239 | the corrected dispatch serves the first match with nothing written before it, or writes a single 404 |
| Groups.DispatchAddsNotFounds | group.go:232-238 | the code as written succeeds exactly when the corrected dispatch does, and then adds only 404 writes in front of the corrected trace |
| Groups.IntendedLeavesStatusToChain | group.go:227 | after a corrected successful dispatch the router itself has written no status |
| Groups.LiteralPairRoute | group.go:77 | a route registered as `/q` on a group with prefix `/p` compiles to `^/p/q$` |
| Groups.LiteralPairMatch | group.go:210 | the pattern `^/p/q$` matches only the path `/p/q` |
| Groups.TwoSubgroupsRegistered | group.go:27-37 | the two-subgroup example is what `Group` and `Handle` build, and it is well formed |
| Groups.SiblingMissAsWritten | group.go:232-238 | when only the second sibling's route matches, the code writes 404 and then serves that route |
| Groups.SiblingMissIntended | group.go:232-236 | in the same case, the corrected dispatch serves the route and writes nothing first |
| Groups.SiblingMissCommitsNotFound | group.go:237 | in the same case, the first status written is 404 as written and none when corrected |
| Groups.SiblingMissExample | group.go:232-238 | subgroups `/a` with `GET /x` and `/b` with `GET /y`: request `GET /b/y` is handled, yet 404 is the first status written |
| Router.NotFoundResponse | router.go:38 | what `http.NotFound` writes: status 404, then the body `404 page not found\n` |
| Router.ServeTrace | router.go:36-40 | the reference for `ServerHTTP`: the root's writes, then the not-found response when the root reports failure; see `ServeUnmatched` and `ServeMatched` |
| Router.NewRouter | router.go:14-24 | a fresh router whose arena is one empty root group without a parent |
| Router.ServerHTTP | router.go:36-40 | the writes are the root's search followed by `http.NotFound` when the search reports failure |
| Router.RootEntries | router.go:37 | the router's search is the first-match search over the whole tree |
| Router.ServeUnmatched | router.go:37-39 | with no matching route: one 404 per group, then status 404 and the body `404 page not found\n`; no handler runs |
| Router.ServeMatched | router.go:37 | with a matching route: only 404 writes, then the first match served; one handler runs; no not-found body is written |
| Router.ServeWritesNoBody | group.go:222-227 | serving a route writes no body of its own, since handlers are opaque |
| Router.ServeDelegates | router.go:37-39 | the router's writes extend the root's writes, by exactly the two not-found writes when the root fails |
| Router.ServeIntended | router.go:36-40 | with the corrected search: a match is served with no router status; no match gives status 404 twice and the not-found body |
| Router.LiteralMatch | router_test.go:31-37 | a single literal segment matches exactly `/` followed by it |
| Router.TestRouteServed | router_test.go:31-37 | `GET /test` on a router with route `GET /test` invokes its handler, with no 404 written |
| Router.TestRouteMatches | router_test.go:31-37 | the route `GET /test` selects the request `GET /test` with an empty parameter map |
| Router.InvalidRouteNotFound | router_test.go:38-44 | `GET /invalid` on that router writes 404 from the root, then 404 with the body `404 page not found\n` |

## Left out

- Go's `regexp` engine is not modelled. A compiled route keeps its
  expression text and a structural matcher over the same segments. The two
  are guaranteed to agree when literal parts hold no regular-expression
  metacharacter (a sufficient condition, not a necessary one), so
  `Routes.ParsePattern` and `Groups.Tree.Handle` require `LiteralsPlain`. Under that condition `regexp.MustCompile` (route.go:52)
  cannot panic, and a pattern with metacharacters is outside the model.
- Groups.Tree.Handle: requires `LiteralsPlain` of the full pattern, which the
  source does not require; see the line above. The metacharacters include
  `{` and `}`, so a pattern such as `/{id}` cannot be registered in the
  model (neither by `Handle` nor by the seven shortcuts), although Go
  accepts it and matches the braces literally.
- `net/http` is not modelled. The response writer is a trace of `Event`s,
  and `http.NotFound` is its status write followed by its body write.
- `context.WithValue` and `ParamsFromContext` (utils.go) are not modelled.
  The parameter map travels in the `params` field of `Request`.
- Handler and middleware bodies are opaque identities. A middleware's work
  is recorded as one `Before` and one `After` event around the handler it
  wraps. A middleware that skips or repeats its `next` call is not modelled.
  Status codes and bodies written by handlers are not modelled either; this
  includes the 200 that router_test.go expects.
- The logging middleware (middlewares/) is not modelled. It only performs
  I/O: it writes to the log and reads the clock.
- Concurrency is not modelled: concurrent `ServerHTTP` calls, and
  registering routes while requests are being served.
- Go strings are byte sequences; the model's strings are sequences of
  characters. For valid UTF-8 this changes nothing: `/` is a single byte
  that never occurs inside a multi-byte character, so splitting on `/` and
  the class `[^/]` select the same pieces on bytes and on characters.
  Invalid UTF-8 in a path or pattern is not modelled.
- Groups are indices into an arena. The Go code holds pointers to groups;
  since the tree only grows and is never re-linked, aliasing plays no part.
- The doc comments of `Handle` and the shortcuts (group.go:64, group.go:71,
  group.go:91, group.go:98) describe parameters as `{id}`. The code only
  treats parts that start with `:` as parameters (route.go:43), and the
  model follows the code: `Routes.Compile` turns a `{id}` part into a
  literal segment. Because `{` and `}` are metacharacters, such a pattern
  fails `LiteralsPlain`, so only `Compile` covers it; `ParsePattern`,
  `Handle` and the shortcuts cannot register it (see the
  `Groups.Tree.Handle` line above).
- The type name `Router` and its embedding of `*Group` are represented by a
  `Tree` whose group 0 is the router's root.

## Findings

| source | as written | input that shows it | evidently intended | confidence | as-written member | corrected member |
|---|---|---|---|---|---|---|
| group.go:232-238 | every subgroup whose search fails calls `w.WriteHeader(404)` before the next sibling is tried, so when a later sibling matches, 404 is already the response status before its handler runs | root with subgroup `/a` (route `GET /x`) then subgroup `/b` (route `GET /y`); request `GET /b/y` | a group writes 404 only when nothing in the whole tree matches, so the matched handler's response carries its own status | not executed | Groups.SiblingMissExample | Groups.DispatchIntendedServesFirstMatch |

The same discrepancy holds in general. `Groups.SiblingMissAsWritten`
exhibits it for any two sibling routes where only the second one matches.
`Groups.DispatchAddsNotFounds` shows that the code as written differs from
the corrected search `Groups.DispatchIntended` only by 404 writes put in
front. `Groups.IntendedLeavesStatusToChain` and `Router.ServeIntended` show
that with the corrected search a served request has no status written by
the router. The group's own 404 before `http.NotFound` (group.go:237 and
router.go:38) is a double write even when nothing matches. `net/http` logs
it and ignores it, and the model records it as written
(`Router.InvalidRouteNotFound`).

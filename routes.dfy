/**
  The route record and the pattern compiler of route.go.

  A template such as "/users/:id" is split on '/', empty parts are dropped,
  a part that starts with ':' becomes the capture `([^/]+)` and records its
  name, every other part is copied verbatim, and the pieces are joined and
  anchored as `^/...$`. The compiled regular expression is modelled by its
  text (`Matcher.source`) and, for matching, by the sequence of segments it
  is made of: a literal or a capture of one or more non-'/' characters.
*/
module Routes {
  import opened Wrappers
  import opened Paths

  /** An opaque handler: only its identity matters to the router. */
  type HandlerId = nat

  datatype Segment = Lit(text: string) | Param

  /** A compiled pattern: the regular expression's text and its structure. */
  datatype Matcher = Matcher(source: string, segments: seq<Segment>)

  /** The `route` record: method, compiled pattern, capture names, handler. */
  datatype Route = Route(httpMethod: string, pattern: Matcher, paramNames: seq<string>, handler: HandlerId)

  /** The regular expression emitted for a named parameter. */
  const CAPTURE: string := "([^/]+)"

  // ---------------------------------------------------------------------
  // The compiler, as a specification over the parts of the split template
  // ---------------------------------------------------------------------

  /** `strings.HasPrefix(part, ":")`. */
  predicate IsParamPart(part: string) {
    |part| > 0 && part[0] == ':'
  }

  function SegmentOf(part: string): Segment {
    if IsParamPart(part) then Param else Lit(part)
  }

  /** The regular-expression text emitted for one segment. */
  function PieceOf(seg: Segment): string {
    match seg
    case Lit(text) => text
    case Param => CAPTURE
  }

  function Pieces(segs: seq<Segment>): seq<string> {
    seq(|segs|, k requires 0 <= k < |segs| => PieceOf(segs[k]))
  }

  lemma PiecesSnoc(segs: seq<Segment>, seg: Segment)
    ensures Pieces(segs + [seg]) == Pieces(segs) + [PieceOf(seg)]
  {
  }

  /** The text of the anchored regular expression for `segs`. */
  function SourceText(segs: seq<Segment>): string {
    "^/" + Join(Pieces(segs)) + "$"
  }

  /** The segments emitted for the parts, left to right, empty parts skipped. */
  function Segments(parts: seq<string>): seq<Segment> {
    if parts == [] then []
    else
      var last := parts[|parts| - 1];
      Segments(parts[..|parts| - 1]) + (if last == [] then [] else [SegmentOf(last)])
  }

  /** The names recorded for the parameter parts, left to right. */
  function ParamNames(parts: seq<string>): seq<string> {
    if parts == [] then []
    else
      var last := parts[|parts| - 1];
      ParamNames(parts[..|parts| - 1]) + (if IsParamPart(last) then [last[1..]] else [])
  }

  /** The non-empty parts, left to right. */
  function NonEmptyParts(parts: seq<string>): seq<string> {
    if parts == [] then []
    else
      var last := parts[|parts| - 1];
      NonEmptyParts(parts[..|parts| - 1]) + (if last == [] then [] else [last])
  }

  /** The number of capture groups in a compiled pattern. */
  function ParamCount(segs: seq<Segment>): nat {
    if segs == [] then 0
    else ParamCount(segs[..|segs| - 1]) + (if segs[|segs| - 1].Param? then 1 else 0)
  }

  /** What `parsePattern` returns for `pattern`. */
  function Compile(pattern: string): (Matcher, seq<string>) {
    var parts := Split(pattern);
    var segs := Segments(parts);
    (Matcher(SourceText(segs), segs), ParamNames(parts))
  }

  /** Characters that have a meaning in Go's regular-expression syntax. */
  predicate IsRegexMeta(c: char) {
    c in "\\.+*?()|[]{}^$"
  }

  predicate Plain(s: string) {
    forall i :: 0 <= i < |s| ==> !IsRegexMeta(s[i])
  }

  /**
    The literal parts are copied into the regular expression unescaped, so the
    structural matcher agrees with the compiled expression only when they hold
    no metacharacter; this is also what keeps `regexp.MustCompile` from
    panicking.
  */
  predicate LiteralsPlain(segs: seq<Segment>) {
    forall k :: 0 <= k < |segs| && segs[k].Lit? ==> Plain(segs[k].text)
  }

  predicate LiteralsSlashFree(segs: seq<Segment>) {
    forall k :: 0 <= k < |segs| && segs[k].Lit? ==> SlashFree(segs[k].text)
  }

  /** A route as `parsePattern` builds it: one name per capture group. */
  predicate RouteOk(r: Route) {
    && |r.paramNames| == ParamCount(r.pattern.segments)
    && LiteralsSlashFree(r.pattern.segments)
  }

  /** `parsePattern`: the loop over the split parts. */
  method ParsePattern(pattern: string) returns (matcher: Matcher, paramNames: seq<string>)
    requires LiteralsPlain(Segments(Split(pattern)))
    ensures (matcher, paramNames) == Compile(pattern)
  {
    var parts := Split(pattern);
    paramNames := [];
    var regexParts: seq<string> := [];
    var segments: seq<Segment> := [];
    for i := 0 to |parts|
      invariant segments == Segments(parts[..i])
      invariant paramNames == ParamNames(parts[..i])
      invariant regexParts == Pieces(segments)
    {
      var part := parts[i];
      assert parts[..i + 1] == parts[..i] + [part];
      Snoc(parts[..i], part);
      if part == [] {
        continue;
      }
      PiecesSnoc(segments, SegmentOf(part));
      if IsParamPart(part) {
        paramNames := paramNames + [part[1..]];
        regexParts := regexParts + [CAPTURE];
        segments := segments + [Param];
      } else {
        regexParts := regexParts + [part];
        segments := segments + [Lit(part)];
      }
    }
    assert parts[..|parts|] == parts;
    matcher := Matcher("^/" + Join(regexParts) + "$", segments);
  }

  // ---------------------------------------------------------------------
  // Matching
  // ---------------------------------------------------------------------

  /** The pieces of a path accepted by `segs` with captured values `caps`. */
  function Fill(segs: seq<Segment>, caps: seq<string>): (pieces: seq<string>)
    requires |caps| == ParamCount(segs)
    ensures |pieces| == |segs|
  {
    if segs == [] then []
    else
      var init := segs[..|segs| - 1];
      match segs[|segs| - 1]
      case Lit(text) => Fill(init, caps) + [text]
      case Param => Fill(init, caps[..|caps| - 1]) + [caps[|caps| - 1]]
  }

  /**
    The anchored expression accepts `path` with captures `caps`: the path is
    "/" followed by the segments joined with "/", each literal standing for
    itself and each capture for a non-empty string without '/'.
  */
  predicate Accepts(segs: seq<Segment>, path: string, caps: seq<string>) {
    && |caps| == ParamCount(segs)
    && (forall k :: 0 <= k < |caps| ==> caps[k] != [] && SlashFree(caps[k]))
    && path == "/" + Join(Fill(segs, caps))
  }

  /** Matches the pieces of a path one to one against the segments. */
  function MatchPieces(segs: seq<Segment>, pieces: seq<string>): (r: Option<seq<string>>)
    ensures r.Some? ==> |r.value| == ParamCount(segs)
  {
    if |segs| != |pieces| then None
    else if segs == [] then Some([])
    else
      var init, rest := segs[..|segs| - 1], pieces[..|pieces| - 1];
      var last := pieces[|pieces| - 1];
      match segs[|segs| - 1]
      case Lit(text) => if last == text then MatchPieces(init, rest) else None
      case Param =>
        if last == [] then None
        else match MatchPieces(init, rest)
          case None => None
          case Some(caps) => Some(caps + [last])
  }

  /**
    `FindStringSubmatch` of the compiled pattern: the captured values, in
    order, when the whole path matches.
  */
  function Match(segs: seq<Segment>, path: string): (r: Option<seq<string>>)
    ensures r.Some? ==> |r.value| == ParamCount(segs)
  {
    if |path| == 0 || path[0] != '/' then None
    else if segs == [] then (if |path| == 1 then Some([]) else None)
    else MatchPieces(segs, Split(path[1..]))
  }

  // ---------------------------------------------------------------------
  // Lemmas about the compiler
  // ---------------------------------------------------------------------

  lemma {:induction false} SegmentsAppend(a: seq<string>, b: seq<string>)
    ensures Segments(a + b) == Segments(a) + Segments(b)
    decreases |b|
  {
    if b != [] {
      var b' := b[..|b| - 1];
      assert (a + b)[..|a + b| - 1] == a + b';
      SegmentsAppend(a, b');
    } else {
      assert a + b == a;
    }
  }

  lemma {:induction false} ParamNamesAppend(a: seq<string>, b: seq<string>)
    ensures ParamNames(a + b) == ParamNames(a) + ParamNames(b)
    decreases |b|
  {
    if b != [] {
      var b' := b[..|b| - 1];
      assert (a + b)[..|a + b| - 1] == a + b';
      ParamNamesAppend(a, b');
    } else {
      assert a + b == a;
    }
  }

  lemma {:induction false} ParamCountAppend(a: seq<Segment>, b: seq<Segment>)
    ensures ParamCount(a + b) == ParamCount(a) + ParamCount(b)
    decreases |b|
  {
    if b != [] {
      var b' := b[..|b| - 1];
      assert (a + b)[..|a + b| - 1] == a + b';
      ParamCountAppend(a, b');
    } else {
      assert a + b == a;
    }
  }

  /** Capture group i+1 always belongs to name i: there are as many of each. */
  lemma {:induction false} NamesMatchCaptures(parts: seq<string>)
    ensures |ParamNames(parts)| == ParamCount(Segments(parts))
  {
    if parts != [] {
      var init, last := parts[..|parts| - 1], parts[|parts| - 1];
      NamesMatchCaptures(init);
      ParamCountAppend(Segments(init), if last == [] then [] else [SegmentOf(last)]);
    }
  }

  /** Every compiled literal is one non-empty, separator-free part. */
  lemma {:induction false} SegmentsLiteralsSlashFree(parts: seq<string>)
    requires forall k :: 0 <= k < |parts| ==> SlashFree(parts[k])
    ensures LiteralsSlashFree(Segments(parts))
    ensures forall k :: 0 <= k < |Segments(parts)| && Segments(parts)[k].Lit? ==> Segments(parts)[k].text != []
  {
    if parts != [] {
      SegmentsLiteralsSlashFree(parts[..|parts| - 1]);
    }
  }

  /** What `parsePattern` builds is a well-formed route pattern. */
  lemma CompiledRouteOk(pattern: string, httpMethod: string, handler: HandlerId)
    ensures RouteOk(Route(httpMethod, Compile(pattern).0, Compile(pattern).1, handler))
  {
    NamesMatchCaptures(Split(pattern));
    SplitPiecesSlashFree(pattern);
    SegmentsLiteralsSlashFree(Split(pattern));
  }

  /** The empty template and "/" both compile to `^/$` with no parameters. */
  lemma CompileRoot()
    ensures Compile("") == (Matcher("^/$", []), [])
    ensures Compile("/") == (Matcher("^/$", []), [])
  {
    assert Pieces([]) == [];
    assert SourceText([]) == "^/$";
    assert Split("/") == [[], []];
    assert Segments([[], []]) == Segments([[]]) == [];
    assert ParamNames([[], []]) == ParamNames([[]]) == [];
  }

  /**
    Compiling two templates joined by '/' concatenates their segments and
    their names: the template's meaning is the sequence of its non-empty parts.
  */
  lemma CompileConcat(a: string, b: string)
    ensures Compile(a + "/" + b).0.segments == Compile(a).0.segments + Compile(b).0.segments
    ensures Compile(a + "/" + b).1 == Compile(a).1 + Compile(b).1
  {
    SplitAround(a, b);
    SegmentsAppend(Split(a), Split(b));
    ParamNamesAppend(Split(a), Split(b));
  }

  /** A leading slash does not change the compiled pattern. */
  lemma CompileLeadingSlash(b: string)
    ensures Compile("/" + b) == Compile(b)
  {
    CompileRoot();
    CompileConcat([], b);
    assert [] + "/" + b == "/" + b;
    assert Compile("/" + b).0.segments == Compile(b).0.segments;
    assert Compile("/" + b).1 == Compile(b).1;
  }

  /** A trailing slash does not change the compiled pattern. */
  lemma CompileTrailingSlash(a: string)
    ensures Compile(a + "/") == Compile(a)
  {
    CompileRoot();
    CompileConcat(a, []);
    assert a + "/" + [] == a + "/";
    assert Compile(a + "/").0.segments == Compile(a).0.segments;
    assert Compile(a + "/").1 == Compile(a).1;
  }

  /** A doubled slash compiles like a single one. */
  lemma CompileDoubledSlash(a: string, b: string)
    ensures Compile(a + "//" + b) == Compile(a + "/" + b)
  {
    CompileConcat(a, "/" + b);
    assert a + "/" + ("/" + b) == a + "//" + b;
    CompileLeadingSlash(b);
    CompileConcat(a, b);
  }

  // ---------------------------------------------------------------------
  // Lemmas about matching
  // ---------------------------------------------------------------------

  lemma {:induction false} FillSlashFree(segs: seq<Segment>, caps: seq<string>)
    requires |caps| == ParamCount(segs) && LiteralsSlashFree(segs)
    requires forall k :: 0 <= k < |caps| ==> SlashFree(caps[k])
    ensures forall k :: 0 <= k < |segs| ==> SlashFree(Fill(segs, caps)[k])
  {
    if segs != [] {
      var init := segs[..|segs| - 1];
      if segs[|segs| - 1].Param? {
        FillSlashFree(init, caps[..|caps| - 1]);
      } else {
        FillSlashFree(init, caps);
      }
    }
  }

  lemma {:induction false} MatchPiecesSound(segs: seq<Segment>, pieces: seq<string>)
    requires MatchPieces(segs, pieces).Some?
    ensures var caps := MatchPieces(segs, pieces).value;
      && Fill(segs, caps) == pieces
      && forall k :: 0 <= k < |caps| ==> caps[k] != [] && caps[k] in pieces
  {
    if segs != [] {
      var init, rest := segs[..|segs| - 1], pieces[..|pieces| - 1];
      MatchPiecesSound(init, rest);
      assert rest + [pieces[|pieces| - 1]] == pieces;
    }
  }

  lemma {:induction false} MatchPiecesComplete(segs: seq<Segment>, caps: seq<string>)
    requires |caps| == ParamCount(segs)
    requires forall k :: 0 <= k < |caps| ==> caps[k] != []
    ensures MatchPieces(segs, Fill(segs, caps)) == Some(caps)
  {
    if segs != [] {
      var init := segs[..|segs| - 1];
      var pieces := Fill(segs, caps);
      assert pieces[..|pieces| - 1] == Fill(init, if segs[|segs| - 1].Param? then caps[..|caps| - 1] else caps);
      if segs[|segs| - 1].Param? {
        MatchPiecesComplete(init, caps[..|caps| - 1]);
        assert caps[..|caps| - 1] + [caps[|caps| - 1]] == caps;
      } else {
        MatchPiecesComplete(init, caps);
      }
    }
  }

  /**
    The structural matcher returns exactly the captures under which the
    anchored expression accepts the path: a path matches if and only if it is
    "/" followed by the joined segments, with every capture non-empty and free
    of '/'.
  */
  lemma MatchIffAccepts(segs: seq<Segment>, path: string, caps: seq<string>)
    requires LiteralsSlashFree(segs)
    ensures Match(segs, path) == Some(caps) <==> Accepts(segs, path, caps)
  {
    if Match(segs, path) == Some(caps) {
      if segs == [] {
        assert path == "/";
      } else {
        var pieces := Split(path[1..]);
        MatchPiecesSound(segs, pieces);
        SplitPiecesSlashFree(path[1..]);
        JoinSplit(path[1..]);
        forall k | 0 <= k < |caps| ensures SlashFree(caps[k]) {
          var j :| 0 <= j < |pieces| && pieces[j] == caps[k];
        }
        assert path == [path[0]] + path[1..];
      }
    }
    if Accepts(segs, path, caps) {
      if segs != [] {
        var pieces := Fill(segs, caps);
        FillSlashFree(segs, caps);
        SplitJoin(pieces);
        assert path[1..] == Join(pieces);
        MatchPiecesComplete(segs, caps);
      }
    }
  }

  /** Captures are determined by the path: at most one way to match. */
  lemma AcceptsDeterministic(segs: seq<Segment>, path: string, caps1: seq<string>, caps2: seq<string>)
    requires LiteralsSlashFree(segs)
    requires Accepts(segs, path, caps1) && Accepts(segs, path, caps2)
    ensures caps1 == caps2
  {
    MatchIffAccepts(segs, path, caps1);
    MatchIffAccepts(segs, path, caps2);
  }

  lemma {:induction false} FillLiterals(parts: seq<string>)
    requires ParamNames(parts) == []
    ensures ParamCount(Segments(parts)) == 0
    ensures Fill(Segments(parts), []) == NonEmptyParts(parts)
  {
    NamesMatchCaptures(parts);
    if parts != [] {
      var init, last := parts[..|parts| - 1], parts[|parts| - 1];
      ParamNamesAppend(init, [last]);
      assert [last][..0] == [];
      ParamCountAppend(Segments(init), if last == [] then [] else [SegmentOf(last)]);
      FillLiterals(init);
      var segs := Segments(parts);
      if last != [] {
        assert !IsParamPart(last);
        assert segs == Segments(init) + [Lit(last)];
        assert segs[..|segs| - 1] == Segments(init);
        assert Fill(segs, []) == Fill(Segments(init), []) + [last];
      } else {
        assert segs == Segments(init);
      }
    }
  }

  /**
    A template without parameters records no names and matches exactly one
    path: "/" followed by its non-empty parts joined with "/".
  */
  lemma LiteralTemplateMatchesOnlyItself(pattern: string, path: string)
    requires Compile(pattern).1 == []
    ensures Match(Compile(pattern).0.segments, path).Some?
        <==> path == "/" + Join(NonEmptyParts(Split(pattern)))
  {
    var parts := Split(pattern);
    var segs := Segments(parts);
    assert Compile(pattern).0.segments == segs;
    FillLiterals(parts);
    NamesMatchCaptures(parts);
    SplitPiecesSlashFree(pattern);
    SegmentsLiteralsSlashFree(parts);
    MatchIffAccepts(segs, path, []);
    var r := Match(segs, path);
    if r.Some? {
      assert |r.value| == 0;
      assert r.value == [];
    }
    assert Match(segs, path).Some? <==> Accepts(segs, path, []);
    assert Accepts(segs, path, []) <==> path == "/" + Join(NonEmptyParts(parts));
  }

  // ---------------------------------------------------------------------
  // The expected outputs of route_test.go
  // ---------------------------------------------------------------------

  /** Splits a template written as its parts joined with '/'. */
  lemma SplitParts(pattern: string, parts: seq<string>)
    requires |parts| >= 1 && forall k :: 0 <= k < |parts| ==> SlashFree(parts[k])
    requires Join(parts) == pattern
    ensures Split(pattern) == parts
  {
    SplitJoin(parts);
  }

  /** Appending one part to a template appends at most one segment and one name. */
  lemma Snoc(parts: seq<string>, part: string)
    ensures Segments(parts + [part]) == Segments(parts) + (if part == [] then [] else [SegmentOf(part)])
    ensures ParamNames(parts + [part]) == ParamNames(parts) + (if IsParamPart(part) then [part[1..]] else [])
  {
    assert (parts + [part])[..|parts|] == parts;
  }

  /** The compiled text and names of a template given by its parts. */
  lemma CompileFromParts(pattern: string, parts: seq<string>, segs: seq<Segment>, names: seq<string>, source: string)
    requires |parts| >= 1 && forall k :: 0 <= k < |parts| ==> SlashFree(parts[k])
    requires Join(parts) == pattern
    requires Segments(parts) == segs && ParamNames(parts) == names
    requires "^/" + Join(Pieces(segs)) + "$" == source
    ensures Compile(pattern) == (Matcher(source, segs), names)
  {
    SplitJoin(parts);
  }

  lemma JoinThree(a: string, b: string, c: string)
    ensures Join([a, b, c]) == a + "/" + b + "/" + c
  {
    assert [a, b, c][1..] == [b, c] && [b, c][1..] == [c];
    assert Join([b, c]) == b + "/" + c;
    assert Join([a, b, c]) == a + "/" + (b + "/" + c);
  }

  lemma JoinFour(a: string, b: string, c: string, d: string)
    ensures Join([a, b, c, d]) == a + "/" + b + "/" + c + "/" + d
  {
    assert [a, b, c, d][1..] == [b, c, d];
    JoinThree(b, c, d);
    assert Join([a, b, c, d]) == a + "/" + (b + "/" + c + "/" + d);
  }

  lemma EmptyPartStart()
    ensures Segments([""]) == [] && ParamNames([""]) == []
  {
    Snoc([], "");
  }

  lemma UsersIdText()
    ensures Join(["", "users", ":id"]) == "/users/:id"
    ensures "^/" + Join(Pieces([Lit("users"), Param])) + "$" == "^/users/([^/]+)$"
  {
    JoinThree("", "users", ":id");
    assert "" + "/" + "users" == "/users";
    assert "/users" + "/" + ":id" == "/users/:id";
    assert Pieces([Lit("users"), Param]) == ["users", CAPTURE];
    assert [CAPTURE][1..] == [];
    assert Join(["users", CAPTURE]) == "users" + "/" + CAPTURE;
    assert "^/" + "users" == "^/users";
    assert "^/users" + "/" + CAPTURE == "^/users/([^/]+)";
    assert "^/users/([^/]+)" + "$" == "^/users/([^/]+)$";
  }

  lemma ParsePatternUsersId()
    ensures Compile("/users/:id") == (Matcher("^/users/([^/]+)$", [Lit("users"), Param]), ["id"])
  {
    EmptyPartStart();
    Snoc([""], "users");
    Snoc(["", "users"], ":id");
    UsersIdText();
    CompileFromParts("/users/:id", ["", "users", ":id"], [Lit("users"), Param], ["id"], "^/users/([^/]+)$");
  }

  lemma ProductsParts()
    ensures Segments(["", "products", ":category", ":id"]) == [Lit("products"), Param, Param]
    ensures ParamNames(["", "products", ":category", ":id"]) == ["category", "id"]
  {
    EmptyPartStart();
    Snoc([""], "products");
    Snoc(["", "products"], ":category");
    Snoc(["", "products", ":category"], ":id");
    assert ["", "products", ":category"] + [":id"] == ["", "products", ":category", ":id"];
  }

  lemma ProductsText()
    ensures Join(["", "products", ":category", ":id"]) == "/products/:category/:id"
    ensures "^/" + Join(Pieces([Lit("products"), Param, Param])) + "$" == "^/products/([^/]+)/([^/]+)$"
  {
    JoinFour("", "products", ":category", ":id");
    ProductsPatternText();
    assert Pieces([Lit("products"), Param, Param]) == ["products", CAPTURE, CAPTURE];
    JoinThree("products", CAPTURE, CAPTURE);
    ProductsSourceText();
  }

  lemma ProductsPatternText()
    ensures "" + "/" + "products" + "/" + ":category" + "/" + ":id" == "/products/:category/:id"
  {
    assert "" + "/" + "products" == "/products";
    assert "/products" + "/" + ":category" == "/products/:category";
    assert "/products/:category" + "/" + ":id" == "/products/:category/:id";
  }

  lemma ProductsSourceText()
    ensures "^/" + ("products" + "/" + CAPTURE + "/" + CAPTURE) + "$" == "^/products/([^/]+)/([^/]+)$"
  {
    assert "^/" + "products" == "^/products";
    assert "^/products" + "/" + CAPTURE == "^/products/([^/]+)";
    assert "^/products/([^/]+)" + "/" + CAPTURE == "^/products/([^/]+)/([^/]+)";
    assert "^/products/([^/]+)/([^/]+)" + "$" == "^/products/([^/]+)/([^/]+)$";
  }

  lemma ParsePatternProducts()
    ensures Compile("/products/:category/:id")
         == (Matcher("^/products/([^/]+)/([^/]+)$", [Lit("products"), Param, Param]), ["category", "id"])
  {
    ProductsParts();
    ProductsText();
    CompileFromParts("/products/:category/:id", ["", "products", ":category", ":id"],
      [Lit("products"), Param, Param], ["category", "id"], "^/products/([^/]+)/([^/]+)$");
  }

  lemma StaticFilesText()
    ensures Join(["", "static", "files"]) == "/static/files"
    ensures "^/" + Join(Pieces([Lit("static"), Lit("files")])) + "$" == "^/static/files$"
  {
    JoinThree("", "static", "files");
    assert "" + "/" + "static" == "/static";
    assert "/static" + "/" + "files" == "/static/files";
    assert Pieces([Lit("static"), Lit("files")]) == ["static", "files"];
    assert ["files"][1..] == [];
    assert Join(["static", "files"]) == "static" + "/" + "files";
    assert "^/" + "static" == "^/static";
    assert "^/static" + "/" + "files" == "^/static/files";
    assert "^/static/files" + "$" == "^/static/files$";
  }

  lemma ParsePatternStaticFiles()
    ensures Compile("/static/files") == (Matcher("^/static/files$", [Lit("static"), Lit("files")]), [])
  {
    EmptyPartStart();
    Snoc([""], "static");
    Snoc(["", "static"], "files");
    StaticFilesText();
    CompileFromParts("/static/files", ["", "static", "files"], [Lit("static"), Lit("files")], [], "^/static/files$");
  }

  lemma AllParamsParts()
    ensures Segments(["", ":entity", ":action", ":id"]) == [Param, Param, Param]
    ensures ParamNames(["", ":entity", ":action", ":id"]) == ["entity", "action", "id"]
  {
    EmptyPartStart();
    Snoc([""], ":entity");
    Snoc(["", ":entity"], ":action");
    Snoc(["", ":entity", ":action"], ":id");
    assert ["", ":entity", ":action"] + [":id"] == ["", ":entity", ":action", ":id"];
  }

  lemma AllParamsText()
    ensures Join(["", ":entity", ":action", ":id"]) == "/:entity/:action/:id"
    ensures "^/" + Join(Pieces([Param, Param, Param])) + "$" == "^/([^/]+)/([^/]+)/([^/]+)$"
  {
    JoinFour("", ":entity", ":action", ":id");
    AllParamsPatternText();
    assert Pieces([Param, Param, Param]) == [CAPTURE, CAPTURE, CAPTURE];
    JoinThree(CAPTURE, CAPTURE, CAPTURE);
    AllParamsSourceText();
  }

  lemma AllParamsPatternText()
    ensures "" + "/" + ":entity" + "/" + ":action" + "/" + ":id" == "/:entity/:action/:id"
  {
    assert "" + "/" + ":entity" == "/:entity";
    assert "/:entity" + "/" + ":action" == "/:entity/:action";
    assert "/:entity/:action" + "/" + ":id" == "/:entity/:action/:id";
  }

  lemma AllParamsSourceText()
    ensures "^/" + (CAPTURE + "/" + CAPTURE + "/" + CAPTURE) + "$" == "^/([^/]+)/([^/]+)/([^/]+)$"
  {
    assert "^/" + CAPTURE == "^/([^/]+)";
    assert "^/([^/]+)" + "/" + CAPTURE == "^/([^/]+)/([^/]+)";
    assert "^/([^/]+)/([^/]+)" + "/" + CAPTURE == "^/([^/]+)/([^/]+)/([^/]+)";
    assert "^/([^/]+)/([^/]+)/([^/]+)" + "$" == "^/([^/]+)/([^/]+)/([^/]+)$";
  }

  lemma ParsePatternAllParams()
    ensures Compile("/:entity/:action/:id")
         == (Matcher("^/([^/]+)/([^/]+)/([^/]+)$", [Param, Param, Param]), ["entity", "action", "id"])
  {
    AllParamsParts();
    AllParamsText();
    CompileFromParts("/:entity/:action/:id", ["", ":entity", ":action", ":id"],
      [Param, Param, Param], ["entity", "action", "id"], "^/([^/]+)/([^/]+)/([^/]+)$");
  }

  /** A literal followed by a parameter accepts the literal and any one non-empty segment. */
  lemma LiteralThenParamAccepts(lit: string, value: string)
    requires SlashFree(lit) && SlashFree(value) && value != []
    ensures Match([Lit(lit), Param], "/" + lit + "/" + value) == Some([value])
  {
    var segs := [Lit(lit), Param];
    assert segs[..1] == [Lit(lit)] && [Lit(lit)][..0] == [] && [value][..0] == [];
    assert ParamCount(segs[..1]) == 0;
    assert Fill(segs, [value]) == [lit, value];
    assert "/" + lit + "/" + value == "/" + Join([lit, value]);
    MatchIffAccepts(segs, "/" + lit + "/" + value, [value]);
  }

  /** "/users/:id" accepts "/users/123", capturing "123". */
  lemma UsersIdAccepts()
    ensures Match([Lit("users"), Param], "/users/123") == Some(["123"])
  {
    assert "/users/123" == "/" + "users" + "/" + "123";
    LiteralThenParamAccepts("users", "123");
  }

  /** "/users/:id" rejects "/users": a parameter needs at least one character. */
  lemma UsersIdRejectsShorterPath()
    ensures Match([Lit("users"), Param], "/users") == None
  {
    SplitParts("users", ["users"]);
    assert "/users"[1..] == "users";
  }

  /** A repeated name is not rejected: both occurrences are recorded. */
  lemma DuplicateNamesKept()
    ensures Compile("/:id/:id").1 == ["id", "id"]
  {
    DuplicateNamesParts();
    JoinThree("", ":id", ":id");
    DuplicateNamesText();
    SplitParts("/:id/:id", ["", ":id", ":id"]);
  }

  lemma DuplicateNamesParts()
    ensures ParamNames(["", ":id", ":id"]) == ["id", "id"]
  {
    EmptyPartStart();
    assert IsParamPart(":id") && ":id"[1..] == "id";
    Snoc([""], ":id");
    Snoc(["", ":id"], ":id");
    assert [""] + [":id"] == ["", ":id"];
    assert ["", ":id"] + [":id"] == ["", ":id", ":id"];
  }

  lemma DuplicateNamesText()
    ensures "" + "/" + ":id" + "/" + ":id" == "/:id/:id"
  {
    assert "" + "/" + ":id" == "/:id";
    assert "/:id" + "/" + ":id" == "/:id/:id";
  }

}

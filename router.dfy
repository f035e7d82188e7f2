/**
 * The route table and dispatcher `Router`: an insertion-ordered table of named
 * routes plus one optional default route, request matching in insertion order,
 * dispatch with typed failures, and reverse URI generation by name or by a
 * `name/controller:action` descriptor.
 *
 * A route's own behaviour (`Route::match`, `Route::uri`, `Route::handle`) is not
 * part of this model: the operations that need it take it as a function argument,
 * and only what `Router` does with the results is stated.
 */
module Routing {
  import opened Wrappers
  import opened RouteTable
  import Descriptor
  import Sequences

  /** Request attribute holding the matched route. */
  const RouteAttribute := "route"
  /** Request attribute holding the matched route's name. */
  const RouteNameAttribute := "routeName"
  /** Request attribute holding the captured parameters. */
  const RouteMatchesAttribute := "matches"
  /** The collection key that `import` installs as the default route. */
  const DefaultRouteName := "default"

  const InvalidDefinitionMessage := "Invalid route definition"
  const UnmatchedDescriptorMessage := "Unable to locate route or use default route with 'name/controller:action' pattern"

  /** A dependency container, by identity. */
  type ContainerId = nat

  /** A URI handler; `prefix` is the base path it was prefixed with (`withPrefix`). */
  datatype UriHandler = UriHandler(id: nat, prefix: string)

  /** A route value. Every `with...` transformation yields a new value. */
  datatype Route = Route(
    pattern: string,
    target: string,
    defaults: map<string, string>,
    middleware: seq<string>,
    verbs: Option<seq<string>>,
    matches: Option<map<string, string>>,
    containerized: bool,
    container: Option<ContainerId>,
    handler: Option<UriHandler>)

  /** A request attribute value. */
  datatype Attribute =
    | RouteValue(route: Route)
    | NameValue(name: Option<string>)
    | MatchesValue(matches: map<string, string>)
    | OtherValue(text: string)

  /** The parts of a server request the router reads or writes. */
  datatype Request = Request(verb: string, uri: string, attributes: map<string, Attribute>)

  /** A `RouteException` raised by a route. */
  datatype RouteError = RouteError(message: string, code: int)

  /** The exceptions the router lets escape. */
  datatype RouterError =
    | UndefinedRoute(message: string)
    | RouteNotFound(uri: string)
    | RouterException(message: string, code: int, cause: RouteError)

  /** What `Route::match` does: a new route carrying its matches, `null`, or a throw. */
  datatype MatchOutcome = Matched(route: Route) | NoMatch | Invalid(error: RouteError)

  /** A matched route and the table key it was found under (`null` for the default). */
  datatype Hit = Hit(route: Route, name: Option<string>)

  /** `ltrim($s, $c)`: the suffix left after removing every leading `c`. */
  function TrimLeft(s: string, c: char): (r: string)
    ensures |r| <= |s| && r == s[|s| - |r|..]
    ensures forall i :: 0 <= i < |s| - |r| ==> s[i] == c
    ensures r == [] || r[0] != c
  {
    if s != [] && s[0] == c then TrimLeft(s[1..], c) else s
  }

  /** `'/' . ltrim($path, '/')`, as the constructor stores the base path. */
  function NormalizePath(path: string): (r: string)
    ensures 1 <= |r| <= |path| + 1 && r[0] == '/' && (|r| == 1 || r[1] != '/')
    ensures path == seq(|path| - |r| + 1, _ => '/') + r[1..]
  {
    var rest := TrimLeft(path, '/');
    assert path == path[..|path| - |rest|] + rest;
    "/" + rest
  }

  /** Normalising an already normalised path changes nothing. */
  lemma NormalizePathIdempotent(path: string)
    ensures NormalizePath(NormalizePath(path)) == NormalizePath(path)
  {
    var once := NormalizePath(path);
    assert once[1..] == [] || once[1..][0] != '/';
    assert TrimLeft(once[1..], '/') == once[1..];
    assert TrimLeft(once, '/') == TrimLeft(once[1..], '/');
  }

  /** A matcher outcome as the router reports it, under the given name. */
  function Decide(o: MatchOutcome, name: Option<string>): Result<Option<Hit>, RouteError> {
    match o
    case Matched(r) => Ok(Some(Hit(r, name)))
    case NoMatch => Ok(None)
    case Invalid(e) => Err(e)
  }

  /** Named routes tried in insertion order; the first that matches or throws decides. */
  function MatchNamed(t: Table<Route>, q: Request, matcher: (Route, Request) -> MatchOutcome): Result<Option<Hit>, RouteError> {
    if t == [] then Ok(None)
    else if matcher(t[0].1, q).NoMatch? then MatchNamed(t[1..], q, matcher)
    else Decide(matcher(t[0].1, q), Some(t[0].0))
  }

  /** `matchRoute`: the named routes first, then the default route, whose name stays `null`. */
  function MatchWithDefault(t: Table<Route>, d: Option<Route>, q: Request, matcher: (Route, Request) -> MatchOutcome): Result<Option<Hit>, RouteError> {
    var named := MatchNamed(t, q, matcher);
    if named == Ok(None) && d.Some? then Decide(matcher(d.value, q), None) else named
  }

  /**
   * First match wins: when every route before position `i` declines and the route
   * at `i` matches (or throws), that route decides, whatever follows it.
   */
  lemma {:induction false} FirstDecisiveWins(t: Table<Route>, q: Request, matcher: (Route, Request) -> MatchOutcome, i: nat)
    requires i < |t| && !matcher(t[i].1, q).NoMatch?
    requires forall j :: 0 <= j < i ==> matcher(t[j].1, q).NoMatch?
    ensures MatchNamed(t, q, matcher) == Decide(matcher(t[i].1, q), Some(t[i].0))
  {
    if i > 0 {
      assert matcher(t[0].1, q).NoMatch?;
      FirstDecisiveWins(t[1..], q, matcher, i - 1);
    }
  }

  /** The named routes yield nothing exactly when every one of them declines. */
  lemma {:induction false} MatchNamedNone(t: Table<Route>, q: Request, matcher: (Route, Request) -> MatchOutcome)
    ensures MatchNamed(t, q, matcher) == Ok(None) <==> forall j :: 0 <= j < |t| ==> matcher(t[j].1, q).NoMatch?
  {
    if t != [] {
      MatchNamedNone(t[1..], q, matcher);
      if matcher(t[0].1, q).NoMatch? {
        forall j | 0 <= j < |t| && (forall k :: 0 <= k < |t| - 1 ==> matcher(t[1..][k].1, q).NoMatch?)
          ensures matcher(t[j].1, q).NoMatch?
        {
          if j > 0 { assert t[j] == t[1..][j - 1]; }
        }
      }
    }
  }

  /** When the named routes decide, the deciding route is the first that did not decline. */
  lemma {:induction false} FirstDecisive(t: Table<Route>, q: Request, matcher: (Route, Request) -> MatchOutcome) returns (i: nat)
    requires MatchNamed(t, q, matcher) != Ok(None)
    ensures i < |t| && !matcher(t[i].1, q).NoMatch?
    ensures forall j :: 0 <= j < i ==> matcher(t[j].1, q).NoMatch?
    ensures MatchNamed(t, q, matcher) == Decide(matcher(t[i].1, q), Some(t[i].0))
  {
    if matcher(t[0].1, q).NoMatch? {
      var k := FirstDecisive(t[1..], q, matcher);
      i := k + 1;
      forall j | 0 <= j < i ensures matcher(t[j].1, q).NoMatch? {
        if j > 0 { assert t[j] == t[1..][j - 1]; }
      }
    } else {
      i := 0;
    }
  }

  /**
   * The default route is consulted only after every named route declined, and a hit
   * without a name comes from it.
   */
  lemma DefaultOnlyAfterNamed(t: Table<Route>, d: Option<Route>, q: Request, matcher: (Route, Request) -> MatchOutcome)
    ensures (MatchWithDefault(t, d, q, matcher).Ok? && MatchWithDefault(t, d, q, matcher).value.Some?
             && MatchWithDefault(t, d, q, matcher).value.value.name.None?)
        <==> (forall j :: 0 <= j < |t| ==> matcher(t[j].1, q).NoMatch?) && d.Some? && matcher(d.value, q).Matched?
  {
    MatchNamedNone(t, q, matcher);
    if MatchNamed(t, q, matcher) != Ok(None) {
      var i := FirstDecisive(t, q, matcher);
    }
  }

  /** The request as `handle` passes it on: the three routing attributes set. */
  function Annotate(request: Request, hit: Hit): (r: Request)
    ensures r.verb == request.verb && r.uri == request.uri
    ensures r.attributes.Keys == request.attributes.Keys + {RouteAttribute, RouteNameAttribute, RouteMatchesAttribute}
    ensures r.attributes[RouteAttribute] == RouteValue(hit.route)
    ensures r.attributes[RouteNameAttribute] == NameValue(hit.name)
    ensures r.attributes[RouteMatchesAttribute] == MatchesValue(if hit.route.matches.Some? then hit.route.matches.value else map[])
    ensures forall k :: (k in request.attributes && k !in {RouteAttribute, RouteNameAttribute, RouteMatchesAttribute})
                          ==> r.attributes[k] == request.attributes[k]
  {
    request.(attributes := request.attributes
      [RouteAttribute := RouteValue(hit.route)]
      [RouteNameAttribute := NameValue(hit.name)]
      [RouteMatchesAttribute := MatchesValue(hit.route.matches.GetOr(map[]))])
  }

  /** `withDefaults(['controller' => ..., 'action' => ...])` with the parsed groups. */
  function Inject(route: Route, p: Descriptor.Split): Route {
    route.(defaults := map["controller" := p.tail.controller.GetOr(""), "action" := p.tail.action])
  }

  /** How `import` describes one route. */
  datatype RouteConfig = RouteConfig(
    prefix: string,
    pattern: string,
    target: string,
    defaults: map<string, string>,
    middleware: Option<seq<string>>,
    methods: Option<seq<string>>,
    group: Option<string>)

  /** A route `import` hands to the group registry (`None`: the registry's default group). */
  datatype GroupEntry = GroupEntry(group: Option<string>, name: string, route: Route)

  /** The route `import` builds from a configuration. */
  function Build(c: RouteConfig): (r: Route)
    ensures r.pattern == c.prefix + NormalizePath(c.pattern)
    ensures r.target == c.target && r.defaults == c.defaults && r.verbs == c.methods
    ensures r.middleware == (if c.middleware.Some? then c.middleware.value else [])
    ensures r.matches.None? && r.containerized && r.container.None? && r.handler.None?
  {
    Route(c.prefix + "/" + TrimLeft(c.pattern, '/'), c.target, c.defaults,
          c.middleware.GetOr([]), c.methods, None, true, None, None)
  }

  /** Whether `import` hands the entry to the group registry. */
  predicate Grouped(routes: Table<Route>, name: string) {
    IndexOf(routes, name).None? && name != DefaultRouteName
  }

  /** The registration `import` makes for one collection entry, if any. */
  function Registered(routes: Table<Route>, item: (string, RouteConfig)): seq<GroupEntry> {
    if Grouped(routes, item.0) then [GroupEntry(item.1.group, item.0, Build(item.1))] else []
  }

  /** `Registered` against a fixed table, as one function value. */
  function Registrar(routes: Table<Route>): ((string, RouteConfig)) -> seq<GroupEntry> {
    item => Registered(routes, item)
  }

  /** The group registrations `import` makes, in collection order. */
  function GroupEntries(collection: seq<(string, RouteConfig)>, routes: Table<Route>): (r: seq<GroupEntry>)
    ensures |r| <= |collection|
    ensures forall e :: e in r ==> e.name != DefaultRouteName && IndexOf(routes, e.name).None?
    ensures forall e :: e in r ==>
              (exists j :: 0 <= j < |collection| && Grouped(routes, collection[j].0)
                           && e == GroupEntry(collection[j].1.group, collection[j].0, Build(collection[j].1)))
  {
    var register := Registrar(routes);
    Sequences.FlatMapShort(collection, register);
    Sequences.FlatMapSound(collection, register);
    Sequences.FlatMap(collection, register)
  }

  /** Every entry of the collection that qualifies is handed to the registry. */
  lemma GroupEntriesComplete(collection: seq<(string, RouteConfig)>, routes: Table<Route>, j: nat)
    requires j < |collection| && Grouped(routes, collection[j].0)
    ensures GroupEntry(collection[j].1.group, collection[j].0, Build(collection[j].1)) in GroupEntries(collection, routes)
  {
    Sequences.FlatMapComplete(collection, Registrar(routes), j);
  }

  class Router {
    const basePath: string
    const uriHandler: UriHandler
    const container: ContainerId
    var routes: Table<Route>
    var default: Option<Route>

    ghost predicate Valid()
      reads this
    {
      Unique(routes)
    }

    constructor (basePath: string, uriHandler: UriHandler, container: ContainerId)
      ensures this.basePath == NormalizePath(basePath)
      ensures this.uriHandler == uriHandler && this.container == container
      ensures routes == [] && default == None
      ensures Valid()
    {
      this.basePath := NormalizePath(basePath);
      this.uriHandler := uriHandler;
      this.container := container;
      routes := [];
      default := None;
    }

    /**
     * `configure`: isolate a containerized route without a container in this
     * router's container, and give it the URI handler prefixed with the base path.
     */
    function Configure(route: Route): (r: Route)
      ensures r.handler == Some(uriHandler.(prefix := basePath))
      ensures r.container == if route.containerized && route.container.None? then Some(container) else route.container
      ensures r.(handler := route.handler, container := route.container) == route
    {
      var isolated := if route.containerized && route.container.None? then route.(container := Some(container)) else route;
      isolated.(handler := Some(uriHandler.(prefix := basePath)))
    }

    /** Configuring twice is configuring once. */
    lemma ConfigureIdempotent(route: Route)
      ensures Configure(Configure(route)) == Configure(route)
    {
    }

    method SetRoute(name: string, route: Route)
      requires Valid()
      modifies this
      ensures Valid()
      ensures routes == Put(old(routes), name, Configure(route))
      ensures default == old(default)
    {
      PutUnique(routes, name, Configure(route));
      routes := Put(routes, name, Configure(route));
    }

    method SetDefault(route: Route)
      modifies this
      ensures default == Some(Configure(route))
      ensures routes == old(routes)
    {
      default := Some(Configure(route));
    }

    /** `getRoute`: the stored route, or UndefinedRoute. */
    function GetRoute(name: string): (r: Result<Route, RouterError>)
      reads this
      ensures r.Ok? ==> (name, r.value) in routes
      ensures r.Err? ==> name !in Names(routes) && r.error == UndefinedRoute("Undefined route `" + name + "`")
    {
      match IndexOf(routes, name)
      case Some(i) => assert routes[i] == (name, routes[i].1); Ok(routes[i].1)
      case None => Err(UndefinedRoute("Undefined route `" + name + "`"))
    }

    /**
     * `getRoutes`: the named routes, then the default under the key `""` (PHP's
     * `null` key) unless a named route already holds that key.
     */
    function GetRoutes(): (r: Table<Route>)
      reads this
      ensures |routes| <= |r| <= |routes| + 1 && r[..|routes|] == routes
      ensures |r| == |routes| + 1 <==> default.Some? && "" !in Names(routes)
      ensures |r| == |routes| + 1 ==> r[|routes|] == ("", default.value)
    {
      InNamesIff(routes, "");
      if default.Some? then UnionOne(routes, "", default.value) else routes
    }

    /**
     * `matchRoute`: the named routes in insertion order, then the default. A route
     * that throws aborts the search.
     */
    method MatchRoute(request: Request, matcher: (Route, Request) -> MatchOutcome) returns (result: Result<Option<Hit>, RouteError>)
      ensures result == MatchWithDefault(routes, default, request, matcher)
    {
      var i := 0;
      while i < |routes|
        invariant 0 <= i <= |routes|
        invariant MatchNamed(routes, request, matcher) == MatchNamed(routes[i..], request, matcher)
      {
        var outcome := matcher(routes[i].1, request);
        if !outcome.NoMatch? {
          return Decide(outcome, Some(routes[i].0));
        }
        assert routes[i..][1..] == routes[i + 1..];
        i := i + 1;
      }
      if default.Some? {
        return Decide(matcher(default.value, request), None);
      }
      return Ok(None);
    }

    /**
     * `handle`: a route exception becomes a RouterException keeping its cause and
     * code, no match becomes RouteNotFound with the request URI, and a match is
     * handed the request carrying the route, its name and its matches.
     */
    method Handle<R>(request: Request, matcher: (Route, Request) -> MatchOutcome, dispatch: (Route, Request) -> R)
      returns (response: Result<R, RouterError>)
      ensures match MatchWithDefault(routes, default, request, matcher)
        case Err(e) => response == Err(RouterException(InvalidDefinitionMessage, e.code, e))
        case Ok(None) => response == Err(RouteNotFound(request.uri))
        case Ok(Some(hit)) => response == Ok(dispatch(hit.route, Annotate(request, hit)))
    {
      var found := MatchRoute(request, matcher);
      if found.Err? {
        return Err(RouterException(InvalidDefinitionMessage, found.error.code, found.error));
      }
      if found.value.None? {
        return Err(RouteNotFound(request.uri));
      }
      var hit := found.value.value;
      return Ok(dispatch(hit.route, Annotate(request, hit)));
    }

    /**
     * `castRoute`: parse the descriptor, take the named route (a name that `empty()`
     * rejects counts as absent) or else the default, and inject the parsed
     * controller and action into its defaults.
     */
    function CastRoute(descriptor: string): (r: Result<Route, RouterError>)
      reads this
      ensures Descriptor.Parse(descriptor).None? ==> r == Err(UndefinedRoute(UnmatchedDescriptorMessage))
      ensures Descriptor.Parse(descriptor).Some? ==>
        var p := Descriptor.Parse(descriptor).value;
        var name := p.name.GetOr("");
        if !Descriptor.Empty(name) then
          if name in Names(routes) then r.Ok? && (name, r.value.(defaults := GetRoute(name).value.defaults)) in routes
          else r == Err(UndefinedRoute("Undefined route `" + name + "`"))
        else if default.Some? then r == Ok(Inject(default.value, p))
        else r == Err(UndefinedRoute("Unable to locate route candidate for `" + descriptor + "`"))
      ensures r.Ok? ==> (Descriptor.Parse(descriptor).Some?
        && r.value.defaults == map["controller" := Descriptor.Parse(descriptor).value.tail.controller.GetOr(""),
                                   "action" := Descriptor.Parse(descriptor).value.tail.action])
    {
      match Descriptor.Parse(descriptor)
      case None => Err(UndefinedRoute(UnmatchedDescriptorMessage))
      case Some(p) =>
        var name := p.name.GetOr("");
        InNamesIff(routes, name);
        if !Descriptor.Empty(name) then
          match GetRoute(name)
          case Ok(route) => Ok(Inject(route, p))
          case Err(e) => Err(e)
        else if default.Some? then Ok(Inject(default.value, p))
        else Err(UndefinedRoute("Unable to locate route candidate for `" + descriptor + "`"))
    }

    /** Whether a URI generation raised UndefinedRoute. */
    static predicate Undefined(generated: Result<string, RouterError>) {
      generated.Err? && generated.error.UndefinedRoute?
    }

    /**
     * `uri`: generate from the route of that name; when that raises UndefinedRoute
     * (the name is not defined, or the route's own generation raised it), read the
     * name as a descriptor instead.
     */
    function Uri(name: string, parameters: map<string, string>,
                 generate: (Route, map<string, string>) -> Result<string, RouterError>): (r: Result<string, RouterError>)
      reads this
      ensures name in Names(routes) && !Undefined(generate(GetRoute(name).value, parameters))
              ==> r == generate(GetRoute(name).value, parameters)
      ensures (name !in Names(routes) || Undefined(generate(GetRoute(name).value, parameters)))
              ==> r == match CastRoute(name)
                       case Ok(route) => generate(route, parameters)
                       case Err(e) => Err(e)
    {
      InNamesIff(routes, name);
      var direct := match GetRoute(name)
        case Ok(route) => generate(route, parameters)
        case Err(e) => Err(e);
      if direct.Err? && direct.error.UndefinedRoute? then
        match CastRoute(name)
        case Ok(route) => generate(route, parameters)
        case Err(e) => Err(e)
      else direct
    }

    /** A defined name generates from its own route, unless that raises UndefinedRoute. */
    lemma UriDefinedName(name: string, route: Route, parameters: map<string, string>,
                         generate: (Route, map<string, string>) -> Result<string, RouterError>)
      requires Valid() && (name, route) in routes
      requires !(generate(route, parameters).Err? && generate(route, parameters).error.UndefinedRoute?)
      ensures Uri(name, parameters, generate) == generate(route, parameters)
    {
      LookupIffMember(routes, name, route);
    }

    /** An undefined name that is no descriptor fails before any route is consulted. */
    lemma UriMalformed(name: string, parameters: map<string, string>,
                       generate: (Route, map<string, string>) -> Result<string, RouterError>)
      requires name !in Names(routes) && Descriptor.Parse(name).None?
      ensures Uri(name, parameters, generate) == Err(UndefinedRoute(UnmatchedDescriptorMessage))
    {
      InNamesIff(routes, name);
    }

    /** `uri("users:show")` with only a default route generates from it with the pair injected. */
    lemma UriControllerActionOnDefault(parameters: map<string, string>,
                                       generate: (Route, map<string, string>) -> Result<string, RouterError>)
      requires routes == [] && default.Some?
      ensures Uri("users:show", parameters, generate)
           == generate(default.value.(defaults := map["controller" := "users", "action" := "show"]), parameters)
    {
      Descriptor.ParseControllerAction();
    }

    /** The default `import` installs: the configuration under the last default key. */
    function DefaultAfter(collection: seq<(string, RouteConfig)>, before: Option<Route>): (r: Option<Route>)
      ensures (forall j :: 0 <= j < |collection| ==> collection[j].0 != DefaultRouteName) ==> r == before
      ensures r != before ==> exists j :: 0 <= j < |collection| && collection[j].0 == DefaultRouteName
                                          && r == Some(Configure(Build(collection[j].1)))
      ensures forall j :: 0 <= j < |collection| && collection[j].0 == DefaultRouteName
                          && (forall k :: j < k < |collection| ==> collection[k].0 != DefaultRouteName)
                          ==> r == Some(Configure(Build(collection[j].1)))
    {
      if collection == [] then before
      else
        var last := collection[|collection| - 1];
        if last.0 == DefaultRouteName then Some(Configure(Build(last.1)))
        else DefaultAfter(collection[..|collection| - 1], before)
    }

    /** One more collection entry adds its registration, if any. */
    lemma GroupStep(collection: seq<(string, RouteConfig)>, i: nat, table: Table<Route>)
      requires i < |collection|
      ensures GroupEntries(collection[..i + 1], table) == GroupEntries(collection[..i], table) + Registered(table, collection[i])
    {
      Sequences.FlatMapSnoc(collection, Registrar(table), i);
    }

    /** One more collection entry replaces the default exactly when it has the default key. */
    lemma DefaultStep(collection: seq<(string, RouteConfig)>, i: nat, before: Option<Route>)
      requires i < |collection|
      ensures DefaultAfter(collection[..i + 1], before)
        == if collection[i].0 == DefaultRouteName then Some(Configure(Build(collection[i].1))) else DefaultAfter(collection[..i], before)
    {
      assert collection[..i + 1][..i] == collection[..i];
    }

    /**
     * `import`: build each configured route; the default key goes to `setDefault`,
     * and every other name not yet in the table is handed to the group registry.
     */
    method Import(collection: seq<(string, RouteConfig)>) returns (grouped: seq<GroupEntry>)
      modifies this
      ensures routes == old(routes)
      ensures default == DefaultAfter(collection, old(default))
      ensures grouped == GroupEntries(collection, routes)
    {
      grouped := [];
      var table, before := routes, default;
      var i := 0;
      while i < |collection|
        invariant 0 <= i <= |collection|
        invariant routes == table
        invariant default == DefaultAfter(collection[..i], before)
        invariant grouped == GroupEntries(collection[..i], table)
      {
        var name, config := collection[i].0, collection[i].1;
        var route := Build(config);
        GroupStep(collection, i, table);
        DefaultStep(collection, i, before);
        if Grouped(routes, name) {
          grouped := grouped + [GroupEntry(config.group, name, route)];
        }
        assert grouped == GroupEntries(collection[..i + 1], table);
        if name == DefaultRouteName {
          SetDefault(route);
        }
        assert default == DefaultAfter(collection[..i + 1], before);
        i := i + 1;
      }
      assert collection[..i] == collection;
    }
  }
}

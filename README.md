# Spiral router and middleware pipe in Dafny

This project models two pieces of the Spiral PHP framework and proves properties of them.

- **`Router`**. It keeps an insertion-ordered table of named routes and one optional
  default route.
  - The constructor normalises the base path (`/` followed by the path without its leading
    slashes).
  - `setRoute` and `setDefault` configure a route before storing it. A route that can take a
    container but has none is isolated in the router's container, and every route gets a URI
    handler prefixed with the base path.
  - `matchRoute` tries the named routes in insertion order, then the default.
  - `handle` turns a route exception into a `RouterException` and no match into
    `RouteNotFound`. On a match it passes the request on with the `route`, `routeName` and
    `matches` attributes set.
  - `uri` generates from a named route. When that raises `UndefinedRoute`, it reads the name
    as a `name/controller:action` descriptor (`castRoute`).
  - `import` builds routes from a configurator's collection. It installs the `default` entry
    as the default route and hands the other new names to the group registry.
- **`MiddlewarePipe`**. It holds a list of middleware around a terminal target.
  - `next(position, input)` hands the middleware at `position` the input, a continuation to
    `position + 1` and the context.
  - With no entry at `position`, it calls the target.

Files:

- `wrappers.dfy`: `Option` and `Result`.
- `sequences.dfy` (module `Sequences`): concatenating per-element parts of a sequence, which
  `import`'s group registrations are built from.
- `route_table.dfy` (module `RouteTable`): a PHP array with string keys, as a sequence of
  pairs with unique keys. It covers assignment (`Put`), lookup and array union.
- `descriptor.dfy` (module `Descriptor`): a hand-written matcher for the `castRoute` regular
  expression. It reports the groups PCRE reports, including PCRE's preference for the reading
  with a name, its backtracking to the reading without one, and `$` accepting a final newline.
- `router.dfy` (module `Routing`): routes, requests, errors, and the class `Router`.
- `pipeline.dfy` (module `Pipeline`): the middleware interpreter `Next`/`Perform`, with an
  event trace, and the class `MiddlewarePipe`.

A route's own behaviour (`Route::match`, `Route::uri`, `Route::handle`) is not part of this
model. The router operations that need it take it as a function parameter. A middleware is a
function from (input, context) to a `Script`: how many times it calls the continuation, the
argument of each call (computed from earlier results), and how it builds its return value.

## Model

| member | source | states |
|---|---|---|
| RouteTable.IndexOf | src/Router/src/Router.php:89 | the position found holds the key and no earlier entry does; no position means the key is absent |
| RouteTable.InNamesIff | src/Router/src/Router.php:89 | a key is set exactly when the lookup finds a position |
| RouteTable.Put | src/Router/src/Router.php:79 | after `$routes[$name] = $v`, the key maps to the new value and every other key keeps its value; an existing key keeps its position, and a new key goes at the end |
| RouteTable.LookupIffMember | src/Router/src/Router.php:89-90 | with unique keys, looking a name up gives a value exactly when that (name, value) pair is in the table |
| RouteTable.PutUnique | src/Router/src/Router.php:79 | assignment keeps keys unique |
| RouteTable.PutNames | src/Router/src/Router.php:79 | assignment leaves the key order alone, or appends the new key |
| RouteTable.PutPut | src/Router/src/Router.php:79 | assigning a key twice is the same as assigning only the second value |
| RouteTable.UnionOne | src/Router/src/Router.php:99 | array union keeps the left table as a prefix; it appends the pair exactly when the key is new; the key then maps to the left table's value if there was one, otherwise to the new value |
| Descriptor.TailSound | src/Router/src/Router.php:199 | a reported controller/action part is well formed and reads the subject |
| Descriptor.TailComplete | src/Router/src/Router.php:199 | every well-formed controller/action text is read back as itself |
| Descriptor.Parse | src/Router/src/Router.php:197-207 | a match reports groups the pattern accepts, and those groups spell the subject (with an optional final newline) |
| Descriptor.ParseComplete | src/Router/src/Router.php:197-207 | every text the pattern can produce matches; a reading with a name is reported as such; a match without a name is the only reading |
| Descriptor.ParseUnnamed | src/Router/src/Router.php:190 | a reading with no name, whose controller has no slash, is the match reported |
| Descriptor.NamedNeedsSlash | src/Router/src/Router.php:199 | a reported name implies the subject has a slash |
| Descriptor.ParseControllerAction | src/Router/src/Router.php:190 | `users:show` gives controller `users`, one colon and action `show`, with no name |
| Descriptor.ParseNamedControllerAction | src/Router/src/Router.php:189 | `blog/post::view` gives name `blog`, controller `post`, action `view`, and the whole colon run is taken |
| Descriptor.ParseTrailingNewline | src/Router/src/Router.php:199 | `users:show` followed by a newline matches, with the same groups |
| Descriptor.ParseBacktracksPastName | src/Router/src/Router.php:199 | for `a/:b` the name is given up, and `a/` becomes the controller |
| Descriptor.ParseBare | src/Router/src/Router.php:199 | a subject with no slash, no colon and no final newline matches exactly when it is an action |
| Descriptor.ParseRejectsDigits | src/Router/src/Router.php:203-206 | `123abc` does not match |
| Routing.TrimLeft | src/Router/src/Router.php:46 | `ltrim` returns a suffix, removes only the given character, and leaves no leading copy of it |
| Routing.NormalizePath | src/Router/src/Router.php:46 | the base path starts with exactly one slash, and the input is some slashes followed by the rest of the result |
| Routing.NormalizePathIdempotent | src/Router/src/Router.php:46 | normalising twice gives the same result as normalising once |
| Routing.FirstDecisiveWins | src/Router/src/Router.php:156-163 | once every earlier route declined, the first route that matches or throws decides, whatever follows it |
| Routing.MatchNamedNone | src/Router/src/Router.php:156-164 | the named routes yield nothing exactly when every one of them declines |
| Routing.FirstDecisive | src/Router/src/Router.php:156-163 | any decision comes from the first route that did not decline, reported under its name |
| Routing.DefaultOnlyAfterNamed | src/Router/src/Router.php:166-171 | a hit with no name happens exactly when every named route declined and the default route matched |
| Routing.Annotate | src/Router/src/Router.php:68-73 | the request gains `route`, `routeName` and `matches` (an empty map when the route has no matches); every other attribute is kept |
| Routing.Build | src/Router/src/Router.php:127-139 | the pattern is the prefix followed by the normalised pattern; target, defaults, middleware and verbs come from the configuration |
| Routing.GroupEntries | src/Router/src/Router.php:141-143 | no registration is for the default name or for a name already in the table; each registration is the group, name and built route of a qualifying collection entry |
| Routing.GroupEntriesComplete | src/Router/src/Router.php:141-143 | every collection entry with a new, non-default name is registered with its group and its built route |
| Routing.DefaultAfter | src/Router/src/Router.php:145-147 | the default changes only if the collection has the default key, and then to the configured build of one of its entries; when the collection has the default key, the default is the configured build of its last such entry |
| Routing.Router.constructor | src/Router/src/Router.php:40-47 | the base path is stored normalised; the table starts empty and there is no default |
| Routing.Router.Configure | src/Router/src/Router.php:177-185 | the route gets the handler prefixed with the base path; a containerized route with no container gets the router's container; nothing else changes |
| Routing.Router.ConfigureIdempotent | src/Router/src/Router.php:177-185 | configuring twice gives the same result as configuring once |
| Routing.Router.SetRoute | src/Router/src/Router.php:76-80 | the table becomes the assignment of the configured route under the name; keys stay unique; the default is untouched |
| Routing.Router.SetDefault | src/Router/src/Router.php:82-85 | the default becomes the configured route; the table is untouched |
| Routing.Router.GetRoute | src/Router/src/Router.php:87-94 | a returned route is stored under the name; otherwise the name is undefined and the error is ``Undefined route `name` `` |
| Routing.Router.GetRoutes | src/Router/src/Router.php:96-103 | the named routes come first; the default is appended under the empty key exactly when there is a default and no named route holds that key |
| Routing.Router.MatchRoute | src/Router/src/Router.php:154-172 | the loop computes the matching order: named routes in insertion order, then the default |
| Routing.Router.Handle | src/Router/src/Router.php:53-74 | a route exception becomes `RouterException` with the same code and cause; no match becomes `RouteNotFound` with the request URI; a match dispatches the annotated request |
| Routing.Router.CastRoute | src/Router/src/Router.php:195-223 | a non-matching descriptor gives the pattern error; a non-empty name takes that route, or the undefined-route error; otherwise the default is used, or the no-candidate error; any result carries the parsed controller and action as its defaults |
| Routing.Router.Uri | src/Router/src/Router.php:105-114 | a defined name whose own generation does not raise UndefinedRoute generates from its route; otherwise (an undefined name, or a generation that raised UndefinedRoute) the result is generation from `CastRoute`'s route, or `CastRoute`'s error |
| Routing.Router.UriDefinedName | src/Router/src/Router.php:105-108 | a defined name generates from its own route, unless that generation raises UndefinedRoute |
| Routing.Router.UriMalformed | src/Router/src/Router.php:105-114 | an undefined name that is not a descriptor fails with the pattern error |
| Routing.Router.UriControllerActionOnDefault | src/Router/src/Router.php:109-112 | `users:show` with only a default route generates from that route, with the controller and action injected |
| Routing.Router.Import | src/Router/src/Router.php:116-149 | the table is unchanged; the default is the configured build under the last default key; the registrations are exactly those of `GroupEntries` |
| Pipeline.NextKeepsContext | framework/Components/Http/MiddlewarePipe.php:121 | every middleware entered during a run receives the run's context |
| Pipeline.ShortCircuit | framework/Components/Http/MiddlewarePipe.php:118-121 | a middleware that never calls `next` returns its own value, and neither later middleware nor the target runs |
| Pipeline.Next | framework/Components/Http/MiddlewarePipe.php:103-122 | a step first enters the middleware at the position, or calls the target when `isset` finds no entry there; in that case the target's result is the result and nothing else happens |
| Pipeline.Perform | framework/Components/Http/MiddlewarePipe.php:105-108 | each remaining call of the continuation adds at least one event to the trace |
| Pipeline.EveryCallInput | framework/Components/Http/MiddlewarePipe.php:105-108 | every call of the continuation, not only the first, goes to position + 1, with the argument if it is truthy and with the middleware's input otherwise |
| Pipeline.FirstCallInput | framework/Components/Http/MiddlewarePipe.php:105-108 | the first `next` call goes to position + 1, with the argument if it is truthy and with the current input otherwise |
| Pipeline.ForwardsInOrder | framework/Components/Http/MiddlewarePipe.php:103-122 | when every middleware forwards once, each is entered once, in list order, and then the target runs once |
| Pipeline.UnreachedIrrelevant | framework/Components/Http/MiddlewarePipe.php:118-119 | middleware is resolved only when reached: replacing an entry the run never enters changes nothing |
| Pipeline.ForwardResult | framework/Components/Http/MiddlewarePipe.php:105-108 | a middleware that forwards once returns its finish of what the rest of the chain returned |
| Pipeline.PassThroughReturnsTarget | framework/Components/Http/MiddlewarePipe.php:110-113 | a chain of pass-through middleware returns what the target returns on the same input |
| Pipeline.MiddlewarePipe.constructor | framework/Components/Http/MiddlewarePipe.php:47-50 | stores the given list; no target and no context |
| Pipeline.MiddlewarePipe.Add | framework/Components/Http/MiddlewarePipe.php:60-65 | appends the descriptor unresolved and returns the same pipe |
| Pipeline.MiddlewarePipe.Target | framework/Components/Http/MiddlewarePipe.php:74-79 | sets the target and returns the same pipe |
| Pipeline.MiddlewarePipe.Run | framework/Components/Http/MiddlewarePipe.php:89-94 | stores the context and returns the chain's result from position 0 |

## Left out

- Event dispatching (`RouteFound`, `RouteNotFound` events): the dispatcher is optional I/O and does not affect results.
- `Route::match`, `Route::uri` and `Route::handle` are passed in as functions. `withContainer`, `withUriHandler` and `withPrefix` are modelled as field updates. `withDefaults` is modelled as replacing the defaults map with the parsed controller and action.
- `RoutingConfigurator::DEFAULT_ROUTE_NAME` is not part of this model; it is taken to be `default`.
- Routes that `import` builds are taken to be containerized, as `Route` is.
- `GroupRegistry` bookkeeping is not modelled. `import` returns the registrations it would make, each with its group; a missing group means the registry's default group.
- `AbstractTarget::withCore` is not modelled. The target is an opaque string, and the core swap does not affect routing.
- PHP's conversion of numeric-string array keys to integers is not modelled; table keys stay strings.
- The `routeName` attribute is an optional string; the integer it holds for a numeric key is not modelled.
- Strings are byte strings with one `char` per byte. The descriptor's case-insensitive class covers ASCII letters only, as PCRE does without the `u` modifier.
- `Container::get` is an injected resolver that always returns a middleware. A failing lookup is not modelled.
- A middleware that calls `run` or `add` on the same pipe while a run is in progress is not modelled. Such a call would change the context or list the running chain reads.
- A middleware's side effects and any dependence on when its continuation returns are not modelled. It is a pure `Script`, and how many times it calls `next` is fixed when it is invoked.
- Constructor arrays with non-list keys are not modelled; the middleware list is a sequence indexed from 0.
- Pipeline.MiddlewarePipe.Run: requires a target to be set, as the `target` documentation demands. Without one, PHP before version 8 warns and treats the target's result as `null`, and PHP 8 throws a `TypeError`. The model carries neither. The precondition also excludes runs that finish before reaching the target, which PHP completes without a target.
- The PCRE behaviour of `$` before a final newline is modelled. A descriptor with one trailing newline therefore matches, and its action excludes the newline.

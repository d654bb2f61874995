/**
 * `RouteMapper`: a mapper with a base path that hands routes to the
 * application and records, for each route it can name, a URL helper in the
 * helper table every mapper shares (`RouteMapper.prototype.pathHelpers`,
 * which the application exposes as `path_to`). `mapSubroutes` runs a
 * callback with the base path extended and restores it afterwards;
 * `resource` maps the routes of a resource controller.
 *
 * A helper is a URL generator; it is recorded here by its path template
 * (see module UrlGen for what calling it gives). A callback is modelled by
 * the calls it makes on the mapper it is handed.
 *
 * As written, a verb method names the helper after the path composed with
 * the base path but hands the path as passed (`arguments`) to the generator
 * and to the application; `Env.version` chooses between that and the
 * corrected reading, in which both receive the composed path.
 */
module Routing {
  import opened Wrappers
  import opened Text
  import opened JsValues
  import opened RouteNames
  import opened Resources
  import opened UrlGen

  /** What the mapper relies on but does not define: the verbs it has a method
      for (the `methods` package plus `del` and `all`), the verbs the
      application accepts routes for, and lingo's English inflections; and
      which reading of the verb methods and the generators to follow. */
  datatype Env = Env(mapperVerbs: set<string>, appVerbs: set<string>,
                     singularize: string -> string, pluralize: string -> string,
                     isSingular: string -> bool, version: Version)

  /** A route handed to the application: `app[verb](path, handler)`. */
  datatype AppRoute = AppRoute(verb: string, path: string, handler: Value)

  /** A call made on the mapper. */
  datatype Call =
    | VerbCall(verb: string, path: string, handler: Value)
    | SubroutesCall(sub: string, body: seq<Call>)
    | ResourceCall(name: string, controller: Value, only: Option<seq<string>>,
                   except: seq<string>, callback: Callback)

  /** The callback of `resource`, which is optional. */
  datatype Callback = NoCallback | Callback(body: seq<Call>)

  /** The mapper's base path, the shared helper table (helper name to path
      template) and the routes the application holds. */
  datatype Mapping = Mapping(base: string, helpers: map<string, string>, routes: seq<AppRoute>)

  /** The state after a call and the error it threw, if any. A throw leaves
      the state as it was when the error was thrown. */
  datatype Outcome = Outcome(st: Mapping, error: Option<JsError>)

  // ---------------------------------------------------------------- paths

  /** The constructor's `(basePath || '').replace(/\/$/, '')`, where an object counts as no base path. */
  function InitialBase(arg: Value): (r: Result<string, JsError>)
    ensures arg.Str? ==> r == Success(DropTrailing(arg.s, '/'))
    ensures arg.Obj? || arg.Arr? || arg.InjectorRef? || !Truthy(arg) ==> r == Success("")
    ensures r.Failure? <==> (arg.Bool? || arg.Num?) && Truthy(arg)
  {
    match arg
    case Str(s) => Success(DropTrailing(s, '/'))
    case Obj(_) => Success("")
    case Arr(_) => Success("")
    case InjectorRef => Success("")
    case _ => if Truthy(arg) then Failure(TypeError) else Success("")
  }

  /** What every path mapped under `base` starts with. */
  function Prefix(base: string): string {
    DropTrailing(base, '/') + "/"
  }

  /** The path a verb method maps: `basePath.replace(/\/$/, '') + '/' + path.replace(/^\//, '')`. */
  function ComposePath(base: string, path: string): (r: string)
    ensures StartsWith(r, Prefix(base))
    ensures r[|Prefix(base)|..] == DropLeading(path, '/')
  {
    Prefix(base) + DropLeading(path, '/')
  }

  /** `mapSubroutes`' base: `oldBasePath + '/' + sub.replace(/^\/|\/$/g, '')`. */
  function SubBase(base: string, sub: string): string {
    base + "/" + TrimSlashes(sub)
  }

  /** `name ? (isSingular(name) ? pluralize(name) : name) : ''`. */
  function ResourceName(env: Env, name: string): string {
    if name == "" then "" else if env.isSingular(name) then env.pluralize(name) else name
  }

  // ---------------------------------------------------------------- one route

  /** The table and the routes once a route is recorded: a helper under its
      name when the name is not empty, and the route when the application
      has a method for the verb. */
  function Record(env: Env, st: Mapping, verb: string, name: string, template: string,
                  routePath: string, handler: Value): Mapping
  {
    Mapping(st.base,
            if name != "" then st.helpers[name := template] else st.helpers,
            if verb in env.appVerbs then st.routes + [AppRoute(verb, routePath, handler)] else st.routes)
  }

  /** The path a verb method hands to the generator and to the application:
      as written `arguments`, the path as passed; corrected, the composed path. */
  function HandedPath(env: Env, base: string, path: string): string {
    if env.version == AsWritten then path else ComposePath(base, path)
  }

  /** A verb method of the mapper: the helper is named after the composed
      path, and the handed path is recorded as the helper's template and as
      the application's route. */
  function RouteStep(env: Env, st: Mapping, verb: string, path: string, handler: Value): (o: Outcome)
  {
    if verb !in env.mapperVerbs then Outcome(st, Some(TypeError))
    else
      var full := ComposePath(st.base, path);
      var handed := HandedPath(env, st.base, path);
      Outcome(Record(env, st, verb, HelperNameOf(full, verb, env.singularize), handed, handed, handler), None)
  }

  // ---------------------------------------------------------------- calls

  /** The `forEach` of `resource`: each action's route, in order, until one throws. */
  function MapActions(env: Env, st: Mapping, name: string, controller: Value, actions: seq<string>): Outcome
    decreases |actions|
  {
    if actions == [] then Outcome(st, None)
    else match RouteOf(actions[0])
      case None => Outcome(st, Some(TypeError))   // `availableRoutes[action]` is undefined
      case Some((verb, route)) =>
        match Get(controller, actions[0])
        case Failure(e) => Outcome(st, Some(e))
        case Success(handler) =>
          var o := RouteStep(env, st, verb, ResourcePath(name, route), handler);
          if o.error.Some? then o else MapActions(env, o.st, name, controller, actions[1..])
  }

  /** Calls made one after the other until one throws. */
  function ExecAll(env: Env, st: Mapping, calls: seq<Call>): Outcome
    decreases calls, 0
  {
    if calls == [] then Outcome(st, None)
    else
      var o := ExecCall(env, st, calls[0]);
      if o.error.Some? then o else ExecAll(env, o.st, calls[1..])
  }

  function ExecCall(env: Env, st: Mapping, c: Call): Outcome
    decreases c, 0
  {
    match c
    case VerbCall(verb, path, handler) => RouteStep(env, st, verb, path, handler)
    case SubroutesCall(sub, body) => Subroutes(env, st, sub, body)
    case ResourceCall(name, controller, only, except, callback) =>
      ResourceStep(env, st, name, controller, only, except, callback)
  }

  /** `mapSubroutes`: the body runs under the extended base path, which is
      restored when it returns (not when it throws). */
  function Subroutes(env: Env, st: Mapping, sub: string, body: seq<Call>): Outcome
    decreases body, 1
  {
    var o := ExecAll(env, st.(base := SubBase(st.base, sub)), body);
    if o.error.Some? then o else Outcome(o.st.(base := st.base), None)
  }

  /** `resource`: the selected actions' routes, then the callback's subroutes under the resource name. */
  function ResourceStep(env: Env, st: Mapping, name: string, controller: Value, only: Option<seq<string>>,
                        except: seq<string>, callback: Callback): Outcome
    decreases callback, 2
  {
    var n := ResourceName(env, name);
    var o := MapActions(env, st, n, controller, SelectActions(only, except));
    if o.error.Some? || callback.NoCallback? then o else Subroutes(env, o.st, n, callback.body)
  }

  // ---------------------------------------------------------------- the objects

  /** `RouteMapper.prototype.pathHelpers`: one table that every mapper shares. */
  class HelperTable {
    var generators: map<string, string>

    constructor()
      ensures generators == map[]
    {
      generators := map[];
    }
  }

  /** The application's routing table. */
  class App {
    var routes: seq<AppRoute>

    constructor()
      ensures routes == []
    {
      routes := [];
    }
  }

  class RouteMapper {
    var basePath: string
    const helpers: HelperTable
    const app: App
    const env: Env

    /** `new RouteMapper(basePath)`; a base path the constructor throws on is excluded. */
    constructor(arg: Value, helpers: HelperTable, app: App, env: Env)
      requires InitialBase(arg).Success?
      ensures basePath == InitialBase(arg).value
      ensures this.helpers == helpers && this.app == app && this.env == env
    {
      var base := match arg
        case Str(s) => s
        case _ => "";
      basePath := DropTrailing(base, '/');
      this.helpers := helpers;
      this.app := app;
      this.env := env;
    }

    function State(): Mapping
      reads this, helpers, app
    {
      Mapping(basePath, helpers.generators, app.routes)
    }

    /** `mapper[verb](path, handler)`. */
    method Route(verb: string, path: string, handler: Value) returns (error: Option<JsError>)
      modifies helpers, app
      ensures var o := RouteStep(env, old(State()), verb, path, handler);
        State() == o.st && error == o.error
    {
      if verb !in env.mapperVerbs {
        return Some(TypeError);   // the mapper has no such method
      }
      var full := DropTrailing(basePath, '/') + "/" + DropLeading(path, '/');
      var handed := if env.version == AsWritten then path else full;
      var name := PathHelperName(full, verb, env.singularize);
      assert RouteStep(env, State(), verb, path, handler).st
        == Record(env, State(), verb, name, handed, handed, handler);
      if name != "" {
        helpers.generators := helpers.generators[name := handed];
      }
      if verb in env.appVerbs {
        app.routes := app.routes + [AppRoute(verb, handed, handler)];
      }
      return None;
    }

    /** `mapper.mapSubroutes(sub, callback)`. */
    method MapSubroutes(sub: string, body: seq<Call>) returns (error: Option<JsError>)
      modifies this, helpers, app
      ensures var o := Subroutes(env, old(State()), sub, body);
        State() == o.st && error == o.error
      decreases body, 1
    {
      var oldBasePath := basePath;
      basePath := oldBasePath + "/" + TrimSlashes(sub);
      error := Run(body);
      if error.None? {
        basePath := oldBasePath;
      }
    }

    /** The calls a callback makes, in order, until one throws. */
    method Run(calls: seq<Call>) returns (error: Option<JsError>)
      modifies this, helpers, app
      ensures var o := ExecAll(env, old(State()), calls);
        State() == o.st && error == o.error
      decreases calls, 0
    {
      var i := 0;
      while i < |calls|
        invariant i <= |calls|
        invariant ExecAll(env, old(State()), calls) == ExecAll(env, State(), calls[i..])
        decreases |calls| - i
      {
        assert calls[i..][0] == calls[i] && calls[i..][1..] == calls[i + 1..];
        error := RunCall(calls[i]);
        if error.Some? {
          return;
        }
        i := i + 1;
      }
      return None;
    }

    method RunCall(c: Call) returns (error: Option<JsError>)
      modifies this, helpers, app
      ensures var o := ExecCall(env, old(State()), c);
        State() == o.st && error == o.error
      decreases c, 0
    {
      match c
      case VerbCall(verb, path, handler) =>
        error := Route(verb, path, handler);
      case SubroutesCall(sub, body) =>
        error := MapSubroutes(sub, body);
      case ResourceCall(name, controller, only, except, callback) =>
        error := Resource(name, controller, only, except, callback);
    }

    /** The `forEach` of `resource` over the selected actions. */
    method MapResourceActions(n: string, controller: Value, actions: seq<string>) returns (error: Option<JsError>)
      modifies helpers, app
      ensures var o := MapActions(env, old(State()), n, controller, actions);
        State() == o.st && error == o.error
    {
      var i := 0;
      while i < |actions|
        invariant i <= |actions|
        invariant MapActions(env, old(State()), n, controller, actions) == MapActions(env, State(), n, controller, actions[i..])
        decreases |actions| - i
      {
        assert actions[i..][0] == actions[i] && actions[i..][1..] == actions[i + 1..];
        var route := RouteOf(actions[i]);
        if route.None? {
          return Some(TypeError);
        }
        var (verb, path) := route.value;
        var handler := Get(controller, actions[i]);
        if handler.Failure? {
          return Some(handler.error);
        }
        error := Route(verb, ResourcePath(n, path), handler.value);
        if error.Some? {
          return;
        }
        i := i + 1;
      }
      return None;
    }

    /** `mapper.resource(name, controller, {only, except}, callback)`. */
    method Resource(name: string, controller: Value, only: Option<seq<string>>,
                    except: seq<string>, callback: Callback) returns (error: Option<JsError>)
      modifies this, helpers, app
      ensures var o := ResourceStep(env, old(State()), name, controller, only, except, callback);
        State() == o.st && error == o.error
      decreases callback, 2
    {
      var n := if name == "" then "" else if env.isSingular(name) then env.pluralize(name) else name;
      error := MapResourceActions(n, controller, SelectActions(only, except));
      if error.Some? {
        return;
      }
      if callback.Callback? {
        error := MapSubroutes(n, callback.body);
      }
    }
  }

  // ---------------------------------------------------------------- paths under the base

  /** At the root, a path that starts with a slash is mapped as it is. */
  lemma ComposeRoot(path: string)
    requires StartsWith(path, "/")
    ensures ComposePath("", path) == path
  {
    assert path == [path[0]] + path[1..];
  }

  lemma StartsWithTrans(s: string, t: string, p: string)
    requires StartsWith(s, t) && StartsWith(t, p)
    ensures StartsWith(s, p)
  {
    assert s[..|p|] == s[..|t|][..|p|];
  }

  /** The base path with a slash appended starts with its prefix. */
  lemma BaseSlash(base: string)
    ensures StartsWith(base + "/", Prefix(base))
  {
    if |base| > 0 && base[|base| - 1] == '/' {
      assert Prefix(base) == base;
    }
  }

  /** A subroute's prefix extends its parent's. */
  lemma PrefixNests(base: string, sub: string)
    ensures StartsWith(Prefix(SubBase(base, sub)), Prefix(base))
  {
    var t := TrimSlashes(sub);
    var b := SubBase(base, sub);
    assert StartsWith(Prefix(b), base + "/") by {
      if t == [] {
        assert b == base + "/";
        assert DropTrailing(b, '/') == base;
      } else {
        assert b == (base + "/") + t;
        assert DropTrailing(b, '/')[..|base| + 1] == base + "/";
      }
    }
    BaseSlash(base);
    StartsWithTrans(Prefix(b), base + "/", Prefix(base));
  }

  // ---------------------------------------------------------------- the base path is restored

  lemma {:induction false} MapActionsKeepsBase(env: Env, st: Mapping, name: string, controller: Value, actions: seq<string>)
    ensures MapActions(env, st, name, controller, actions).st.base == st.base
    decreases |actions|
  {
    if actions != [] && RouteOf(actions[0]).Some? && Get(controller, actions[0]).Success? {
      var (verb, route) := RouteOf(actions[0]).value;
      var o := RouteStep(env, st, verb, ResourcePath(name, route), Get(controller, actions[0]).value);
      if o.error.None? {
        MapActionsKeepsBase(env, o.st, name, controller, actions[1..]);
      }
    }
  }

  lemma ExecCallKeepsBase(env: Env, st: Mapping, c: Call)
    ensures ExecCall(env, st, c).error.None? ==> ExecCall(env, st, c).st.base == st.base
  {
    match c
    case VerbCall(_, _, _) =>
    case SubroutesCall(_, _) =>
    case ResourceCall(name, controller, only, except, callback) =>
      var n := ResourceName(env, name);
      MapActionsKeepsBase(env, st, n, controller, SelectActions(only, except));
      var o := MapActions(env, st, n, controller, SelectActions(only, except));
      assert ExecCall(env, st, c) == if o.error.Some? || callback.NoCallback? then o else Subroutes(env, o.st, n, callback.body);
  }

  /** Calls that do not throw leave the mapper's base path as they found it:
      every `mapSubroutes` restores the base path it extended. */
  lemma {:induction false} ExecAllKeepsBase(env: Env, st: Mapping, calls: seq<Call>)
    ensures ExecAll(env, st, calls).error.None? ==> ExecAll(env, st, calls).st.base == st.base
    decreases |calls|
  {
    if calls != [] {
      ExecCallKeepsBase(env, st, calls[0]);
      var o := ExecCall(env, st, calls[0]);
      if o.error.None? {
        ExecAllKeepsBase(env, o.st, calls[1..]);
      }
    }
  }

  /** There is no `finally`: when the callback throws, the base path stays extended. */
  lemma ThrowInSubroutesKeepsSubBase(env: Env, st: Mapping, sub: string, verb: string, path: string, handler: Value)
    requires verb !in env.mapperVerbs
    ensures Subroutes(env, st, sub, [VerbCall(verb, path, handler)])
         == Outcome(st.(base := SubBase(st.base, sub)), Some(TypeError))
  {
    var inner := st.(base := SubBase(st.base, sub));
    assert ExecAll(env, inner, [VerbCall(verb, path, handler)]) == RouteStep(env, inner, verb, path, handler);
  }

  // ---------------------------------------------------------------- everything mapped lies under the base

  /** `after` keeps the routes of `before` in order and every helper name of it;
      the routes it adds, and the helpers it adds or replaces, lie under `p`. */
  ghost predicate Extends(before: Mapping, after: Mapping, p: string) {
    && |before.routes| <= |after.routes| && after.routes[..|before.routes|] == before.routes
    && (forall i :: |before.routes| <= i < |after.routes| ==> StartsWith(after.routes[i].path, p))
    && (forall k :: k in before.helpers ==> k in after.helpers)
    && (forall k :: k in after.helpers ==>
          (k in before.helpers && after.helpers[k] == before.helpers[k]) || StartsWith(after.helpers[k], p))
  }

  lemma ExtendsRefl(st: Mapping, p: string)
    ensures Extends(st, st, p)
  {
  }

  lemma ExtendsTrans(a: Mapping, b: Mapping, c: Mapping, p: string)
    requires Extends(a, b, p) && Extends(b, c, p)
    ensures Extends(a, c, p)
  {
    assert c.routes[..|a.routes|] == c.routes[..|b.routes|][..|a.routes|];
    forall i | |a.routes| <= i < |c.routes|
      ensures StartsWith(c.routes[i].path, p)
    {
      if i < |b.routes| {
        assert c.routes[i] == c.routes[..|b.routes|][i];
      }
    }
  }

  lemma RecordExtends(env: Env, st: Mapping, verb: string, name: string, template: string,
                      routePath: string, handler: Value, p: string)
    requires StartsWith(template, p) && StartsWith(routePath, p)
    ensures Extends(st, Record(env, st, verb, name, template, routePath, handler), p)
  {
  }

  lemma RouteStepExtends(env: Env, st: Mapping, verb: string, path: string, handler: Value, p: string)
    requires env.version == Corrected && StartsWith(Prefix(st.base), p)
    ensures Extends(st, RouteStep(env, st, verb, path, handler).st, p)
  {
    if verb in env.mapperVerbs {
      var full := ComposePath(st.base, path);
      StartsWithTrans(full, Prefix(st.base), p);
      RecordExtends(env, st, verb, HelperNameOf(full, verb, env.singularize), full, full, handler, p);
    } else {
      ExtendsRefl(st, p);
    }
  }

  lemma {:induction false} MapActionsExtends(env: Env, st: Mapping, name: string, controller: Value,
                                             actions: seq<string>, p: string)
    requires env.version == Corrected && StartsWith(Prefix(st.base), p)
    ensures Extends(st, MapActions(env, st, name, controller, actions).st, p)
    decreases |actions|
  {
    if actions == [] || RouteOf(actions[0]).None? || Get(controller, actions[0]).Failure? {
      ExtendsRefl(st, p);
    } else {
      var (verb, route) := RouteOf(actions[0]).value;
      var o := RouteStep(env, st, verb, ResourcePath(name, route), Get(controller, actions[0]).value);
      RouteStepExtends(env, st, verb, ResourcePath(name, route), Get(controller, actions[0]).value, p);
      if o.error.None? {
        MapActionsExtends(env, o.st, name, controller, actions[1..], p);
        ExtendsTrans(st, o.st, MapActions(env, o.st, name, controller, actions[1..]).st, p);
      }
    }
  }

  lemma {:induction false} ExecAllExtends(env: Env, st: Mapping, calls: seq<Call>, p: string)
    requires env.version == Corrected && StartsWith(Prefix(st.base), p)
    ensures Extends(st, ExecAll(env, st, calls).st, p)
    decreases calls, 0
  {
    if calls == [] {
      ExtendsRefl(st, p);
    } else {
      var o := ExecCall(env, st, calls[0]);
      ExecCallExtends(env, st, calls[0], p);
      if o.error.None? {
        ExecCallKeepsBase(env, st, calls[0]);
        ExecAllExtends(env, o.st, calls[1..], p);
        ExtendsTrans(st, o.st, ExecAll(env, o.st, calls[1..]).st, p);
      }
    }
  }

  lemma {:induction false} ExecCallExtends(env: Env, st: Mapping, c: Call, p: string)
    requires env.version == Corrected && StartsWith(Prefix(st.base), p)
    ensures Extends(st, ExecCall(env, st, c).st, p)
    decreases c, 0
  {
    match c
    case VerbCall(verb, path, handler) =>
      RouteStepExtends(env, st, verb, path, handler, p);
    case SubroutesCall(sub, body) =>
      SubroutesExtends(env, st, sub, body, p);
    case ResourceCall(name, controller, only, except, callback) =>
      ResourceStepExtends(env, st, name, controller, only, except, callback, p);
  }

  lemma {:induction false} SubroutesExtends(env: Env, st: Mapping, sub: string, body: seq<Call>, p: string)
    requires env.version == Corrected && StartsWith(Prefix(st.base), p)
    ensures Extends(st, Subroutes(env, st, sub, body).st, p)
    decreases body, 1
  {
    var inner := st.(base := SubBase(st.base, sub));
    var o := ExecAll(env, inner, body);
    assert Extends(inner, o.st, p) by {
      PrefixNests(st.base, sub);
      StartsWithTrans(Prefix(inner.base), Prefix(st.base), p);
      ExecAllExtends(env, inner, body, p);
    }
    ExtendsAnyBase(inner, o.st, st.base, p);
  }

  /** `Extends` does not look at the base paths. */
  lemma ExtendsAnyBase(before: Mapping, after: Mapping, base: string, p: string)
    requires Extends(before, after, p)
    ensures Extends(before.(base := base), after, p) && Extends(before.(base := base), after.(base := base), p)
  {
  }

  lemma {:induction false} ResourceStepExtends(env: Env, st: Mapping, name: string, controller: Value,
                                               only: Option<seq<string>>, except: seq<string>,
                                               callback: Callback, p: string)
    requires env.version == Corrected && StartsWith(Prefix(st.base), p)
    ensures Extends(st, ResourceStep(env, st, name, controller, only, except, callback).st, p)
    decreases callback, 2
  {
    var n := ResourceName(env, name);
    var o := MapActions(env, st, n, controller, SelectActions(only, except));
    MapActionsExtends(env, st, n, controller, SelectActions(only, except), p);
    if o.error.None? && callback.Callback? {
      MapActionsKeepsBase(env, st, n, controller, SelectActions(only, except));
      SubroutesExtends(env, o.st, n, callback.body, p);
      ExtendsTrans(st, o.st, Subroutes(env, o.st, n, callback.body).st, p);
    }
  }

  /** Corrected, whatever the calls, and whether or not one throws, the mapper
      only adds: the application's routes keep their order, no helper
      disappears, and every route and helper the calls add lies under the
      mapper's base path. */
  lemma MappingStaysUnderBase(env: Env, st: Mapping, calls: seq<Call>)
    requires env.version == Corrected
    ensures Extends(st, ExecAll(env, st, calls).st, Prefix(st.base))
  {
    ExecAllExtends(env, st, calls, Prefix(st.base));
  }

  /** As written, a route mapped under a base path escapes it: under `/admin`,
      `get('/users', h)` hands `/users` to the application, where the
      composed path is `/admin/users`. */
  lemma AsWrittenRouteEscapesBase(env: Env, st: Mapping, handler: Value)
    requires env.version == AsWritten
    requires "get" in env.mapperVerbs && "get" in env.appVerbs && st.base == "/admin"
    ensures RouteStep(env, st, "get", "/users", handler).st.routes == st.routes + [AppRoute("get", "/users", handler)]
    ensures !StartsWith("/users", Prefix(st.base))
    ensures RouteStep(env.(version := Corrected), st, "get", "/users", handler).st.routes
         == st.routes + [AppRoute("get", "/admin/users", handler)]
  {
    assert DropTrailing("/admin", '/') == "/admin";
    assert Prefix(st.base) == "/admin/";
    assert "/users"[..6] != "/admin/"[..6] by {
      assert "/users"[1] != "/admin/"[1];
    }
    assert DropLeading("/users", '/') == "users";
    assert ComposePath("/admin", "/users") == "/admin/users";
  }

  // ---------------------------------------------------------------- resources end to end

  /** `app.locals.path_to[helper](params)`: the generator stored under `helper`, applied to `params`. */
  function PathTo(env: Env, st: Mapping, helper: string, params: Value, show: Value -> string,
                  stringify: seq<(string, Value)> -> string): (r: Option<string>)
    ensures r.Some? <==> helper in st.helpers
    ensures r.Some? ==> r.value == Generated(env.version, st.helpers[helper], params, show, stringify)
  {
    if helper in st.helpers then Some(Generated(env.version, st.helpers[helper], params, show, stringify)) else None
  }

  lemma MapOneAction(env: Env, st: Mapping, name: string, controller: Value, action: string)
    requires RouteOf(action).Some? && Get(controller, action).Success?
    ensures MapActions(env, st, name, controller, [action])
         == RouteStep(env, st, RouteOf(action).value.0, ResourcePath(name, RouteOf(action).value.1),
                      Get(controller, action).value)
  {
    var (verb, route) := RouteOf(action).value;
    var o := RouteStep(env, st, verb, ResourcePath(name, route), Get(controller, action).value);
    assert o.error.None? ==> MapActions(env, o.st, name, controller, [action][1..]) == o;
  }

  /** At the root, one resource action maps its route to the action's handler
      and stores the route's generator under the helper name the action is meant to get. */
  lemma ResourceActionMapped(env: Env, st: Mapping, name: string, controller: Value, action: string, handler: Value)
    requires st.base == "" && IsLowerWord(name) && action in AllActions
    requires RouteOf(action).value.0 in env.mapperVerbs && RouteOf(action).value.0 in env.appVerbs
    requires Get(controller, action) == Success(handler)
    requires ResourceHelperName(action, name, env.singularize) != ""
    ensures var (verb, route) := RouteOf(action).value;
      var path := ResourcePath(name, route);
      MapActions(env, st, name, controller, [action])
        == Outcome(Mapping("", st.helpers[ResourceHelperName(action, name, env.singularize) := path],
                           st.routes + [AppRoute(verb, path, handler)]), None)
  {
    var (verb, route) := RouteOf(action).value;
    var path := ResourcePath(name, route);
    assert ComposePath(st.base, path) == path by {
      assert StartsWith(path, "/");
      ComposeRoot(path);
    }
    assert HelperNameOf(path, verb, env.singularize) == ResourceHelperName(action, name, env.singularize) by {
      ResourceRouteNames(name, action, env.singularize);
    }
    MapOneAction(env, st, name, controller, action);
  }

  /** The show route's generator fills in the id. As written it also repeats
      it in the query: `path_to.user({id: 7})` is `/users/7?id=7`; corrected
      it is `/users/7`. */
  lemma ShowPathFillsId(name: string, v: Value, show: Value -> string, stringify: seq<(string, Value)> -> string)
    requires IsLowerWord(name) && Truthy(v)
    ensures UrlAsWritten(ResourcePath(name, "/:id"), Obj([Prop("id", v)]), show, stringify)
         == "/" + name + "/" + show(v) + "?" + stringify([("id", v)])
    ensures Url(ResourcePath(name, "/:id"), Obj([Prop("id", v)]), show, stringify) == "/" + name + "/" + show(v)
  {
    var pre := "/" + name + "/";
    assert DropTrailing("/:id", '/') == "/:id";
    assert ResourcePath(name, "/:id") == pre + ":" + "id" + "" + Format;
    assert ':' !in pre by {
      assert forall k :: 0 <= k < |name| ==> pre[k + 1] == name[k];
    }
    assert AllWord("id");
    AsWrittenRepeatsSubstitutedParam(pre, "id", "", v, show, stringify);
    SubstitutedParamLeavesQuery(pre, "id", "", v, show, stringify);
  }

  /** Mapping a resource's show action at the root lets `path_to` name the member
      path: as written with the id repeated in the query, corrected without. */
  lemma ShowResourcePath(env: Env, st: Mapping, name: string, controller: Value, handler: Value, v: Value,
                         show: Value -> string, stringify: seq<(string, Value)> -> string)
    requires st.base == "" && IsLowerWord(name) && Truthy(v)
    requires "get" in env.mapperVerbs && "get" in env.appVerbs
    requires Get(controller, "show") == Success(handler)
    requires env.singularize(name) != ""
    ensures PathTo(env, MapActions(env, st, name, controller, ["show"]).st, env.singularize(name),
                   Obj([Prop("id", v)]), show, stringify)
         == Some(if env.version == AsWritten then "/" + name + "/" + show(v) + "?" + stringify([("id", v)])
                 else "/" + name + "/" + show(v))
  {
    ResourceActionMapped(env, st, name, controller, "show", handler);
    ShowPathFillsId(name, v, show, stringify);
  }
}

/** The API route table as data (verb, URI, middleware list, handler), and
    the `/check-token` closure that turns a token check into a response. */
module ApiRoutes {
  import opened UserModel
  import opened Http

  datatype Verb = Get | Post | Delete

  /** `auth:<guard>` and `role:<name>` middleware. */
  datatype Middleware = Auth(guard: string) | Role(name: string)

  datatype Controller = AuthController | AdminUserController | AppController | AdminController

  datatype Handler = Action(controller: Controller, action: string) | CheckTokenClosure

  /** A registered route; the URI is its list of path segments, so a group
      prefix is prepended segment by segment. */
  datatype Route = Route(verb: Verb, uri: seq<string>, middleware: seq<Middleware>, handler: Handler)

  const AuthApi := Auth("api")
  const RoleAdmin := Role("admin")

  /** A route group: the group's middleware come before each route's own,
      and the group's prefix before each route's URI. */
  function Group(middleware: seq<Middleware>, prefix: seq<string>, routes: seq<Route>): (r: seq<Route>)
    ensures |r| == |routes|
    ensures forall i :: 0 <= i < |routes| ==>
      r[i] == routes[i].(uri := prefix + routes[i].uri, middleware := middleware + routes[i].middleware)
  {
    if routes == [] then []
    else [routes[0].(uri := prefix + routes[0].uri, middleware := middleware + routes[0].middleware)]
         + Group(middleware, prefix, routes[1..])
  }

  /** The registrations as the route file writes them: three public
      routes, three groups, then two routes with their own middleware. */
  function RouteFile(): seq<Route>
  {
    [ Route(Post, ["login"], [], Action(AuthController, "login")),
      Route(Post, ["register"], [], Action(AuthController, "register")),
      Route(Get, ["check-token"], [], CheckTokenClosure) ]
    + Group([AuthApi], [],
        [ Route(Post, ["logout"], [], Action(AuthController, "logout")),
          Route(Get, ["profile"], [], Action(AuthController, "profile")),
          Route(Post, ["profile"], [], Action(AuthController, "updateProfile")),
          Route(Get, ["users"], [], Action(AppController, "getUsers")) ])
    + Group([AuthApi, RoleAdmin], [],
        [ Route(Get, ["admin", "dashboard"], [], Action(AdminController, "index")) ])
    + Group([AuthApi, RoleAdmin], ["admin"],
        [ Route(Get, ["users"], [], Action(AdminUserController, "index")),
          Route(Delete, ["users", "{id}"], [], Action(AdminUserController, "destroy")) ])
    + [ Route(Get, ["admin", "users"], [AuthApi], Action(AuthController, "getAllUsers")),
        Route(Delete, ["admin", "users", "{id}"], [AuthApi], Action(AuthController, "deleteUser")) ]
  }

  /** The registrations of a table for one verb and URI, in table order. */
  function RoutesFor(routes: seq<Route>, verb: Verb, uri: seq<string>): seq<Route>
  {
    RoutesFrom(routes, 0, verb, uri)
  }

  /** The registrations for one verb and URI among `routes[i..]`. */
  function RoutesFrom(routes: seq<Route>, i: nat, verb: Verb, uri: seq<string>): seq<Route>
    requires i <= |routes|
    decreases |routes| - i
  {
    if i == |routes| then []
    else if routes[i].verb == verb && routes[i].uri == uri then [routes[i]] + RoutesFrom(routes, i + 1, verb, uri)
    else RoutesFrom(routes, i + 1, verb, uri)
  }

  lemma {:induction false} RoutesFromMatches(routes: seq<Route>, i: nat, verb: Verb, uri: seq<string>)
    requires i <= |routes|
    ensures |RoutesFrom(routes, i, verb, uri)| <= |routes| - i
    ensures forall x :: x in RoutesFrom(routes, i, verb, uri) <==>
      x in routes[i..] && x.verb == verb && x.uri == uri
    decreases |routes| - i
  {
    if i < |routes| {
      RoutesFromMatches(routes, i + 1, verb, uri);
      assert routes[i..] == [routes[i]] + routes[i + 1..];
    }
  }

  /** A lookup returns exactly the registrations for that verb and URI. */
  lemma RoutesForMatches(routes: seq<Route>, verb: Verb, uri: seq<string>)
    ensures |RoutesFor(routes, verb, uri)| <= |routes|
    ensures forall x :: x in RoutesFor(routes, verb, uri) <==> x in routes && x.verb == verb && x.uri == uri
  {
    RoutesFromMatches(routes, 0, verb, uri);
    assert routes[0..] == routes;
  }

  /** Every registration, in the order the route file makes them, with
      each group's prefix and middleware applied. */
  function Table(): seq<Route>
  {
    [ Route(Post, ["login"], [], Action(AuthController, "login")),
      Route(Post, ["register"], [], Action(AuthController, "register")),
      Route(Get, ["check-token"], [], CheckTokenClosure),
      Route(Post, ["logout"], [AuthApi], Action(AuthController, "logout")),
      Route(Get, ["profile"], [AuthApi], Action(AuthController, "profile")),
      Route(Post, ["profile"], [AuthApi], Action(AuthController, "updateProfile")),
      Route(Get, ["users"], [AuthApi], Action(AppController, "getUsers")),
      Route(Get, ["admin", "dashboard"], [AuthApi, RoleAdmin], Action(AdminController, "index")),
      Route(Get, ["admin", "users"], [AuthApi, RoleAdmin], Action(AdminUserController, "index")),
      Route(Delete, ["admin", "users", "{id}"], [AuthApi, RoleAdmin], Action(AdminUserController, "destroy")),
      Route(Get, ["admin", "users"], [AuthApi], Action(AuthController, "getAllUsers")),
      Route(Delete, ["admin", "users", "{id}"], [AuthApi], Action(AuthController, "deleteUser")) ]
  }

  /** The route file's groups expand to the table. */
  lemma GroupsExpand()
    ensures RouteFile() == Table()
  {
    var authenticated := Group([AuthApi], [],
        [ Route(Post, ["logout"], [], Action(AuthController, "logout")),
          Route(Get, ["profile"], [], Action(AuthController, "profile")),
          Route(Post, ["profile"], [], Action(AuthController, "updateProfile")),
          Route(Get, ["users"], [], Action(AppController, "getUsers")) ]);
    var dashboard := Group([AuthApi, RoleAdmin], [],
        [ Route(Get, ["admin", "dashboard"], [], Action(AdminController, "index")) ]);
    var admin := Group([AuthApi, RoleAdmin], ["admin"],
        [ Route(Get, ["users"], [], Action(AdminUserController, "index")),
          Route(Delete, ["users", "{id}"], [], Action(AdminUserController, "destroy")) ]);
    assert [AuthApi] + [] == [AuthApi] && [AuthApi, RoleAdmin] + [] == [AuthApi, RoleAdmin];
    assert forall u: seq<string> :: [] + u == u;
    assert authenticated ==
      [ Route(Post, ["logout"], [AuthApi], Action(AuthController, "logout")),
        Route(Get, ["profile"], [AuthApi], Action(AuthController, "profile")),
        Route(Post, ["profile"], [AuthApi], Action(AuthController, "updateProfile")),
        Route(Get, ["users"], [AuthApi], Action(AppController, "getUsers")) ];
    assert dashboard ==
      [ Route(Get, ["admin", "dashboard"], [AuthApi, RoleAdmin], Action(AdminController, "index")) ];
    assert ["admin"] + ["users"] == ["admin", "users"];
    assert ["admin"] + ["users", "{id}"] == ["admin", "users", "{id}"];
    assert admin ==
      [ Route(Get, ["admin", "users"], [AuthApi, RoleAdmin], Action(AdminUserController, "index")),
        Route(Delete, ["admin", "users", "{id}"], [AuthApi, RoleAdmin], Action(AdminUserController, "destroy")) ];
  }

  /** `/login` and `/register` carry no middleware, and neither does
      `/check-token`, which checks the token itself. */
  lemma PublicEntryPoints()
    ensures RoutesFor(Table(), Post, ["login"]) == [Route(Post, ["login"], [], Action(AuthController, "login"))]
    ensures RoutesFor(Table(), Post, ["register"]) == [Route(Post, ["register"], [], Action(AuthController, "register"))]
    ensures RoutesFor(Table(), Get, ["check-token"]) == [Route(Get, ["check-token"], [], CheckTokenClosure)]
  {
    assert RoutesFor(Table(), Post, ["login"]) == [Route(Post, ["login"], [], Action(AuthController, "login"))];
    assert RoutesFor(Table(), Post, ["register"]) == [Route(Post, ["register"], [], Action(AuthController, "register"))];
  }

  /** Logout, both profile routes and `/users` are registered once, behind
      `auth:api` alone. */
  lemma AuthenticatedRoutes()
    ensures RoutesFor(Table(), Post, ["logout"]) == [Route(Post, ["logout"], [AuthApi], Action(AuthController, "logout"))]
    ensures RoutesFor(Table(), Get, ["profile"]) == [Route(Get, ["profile"], [AuthApi], Action(AuthController, "profile"))]
    ensures RoutesFor(Table(), Post, ["profile"]) == [Route(Post, ["profile"], [AuthApi], Action(AuthController, "updateProfile"))]
    ensures RoutesFor(Table(), Get, ["users"]) == [Route(Get, ["users"], [AuthApi], Action(AppController, "getUsers"))]
  {
    assert RoutesFor(Table(), Post, ["logout"]) == [Route(Post, ["logout"], [AuthApi], Action(AuthController, "logout"))];
    assert RoutesFor(Table(), Get, ["profile"]) == [Route(Get, ["profile"], [AuthApi], Action(AuthController, "profile"))];
    assert RoutesFor(Table(), Post, ["profile"]) == [Route(Post, ["profile"], [AuthApi], Action(AuthController, "updateProfile"))];
  }

  /** Wherever `role:admin` guards a route, `auth:api` comes first. */
  lemma AdminGroupsAuthenticateFirst()
    ensures forall i :: 0 <= i < |Table()| && RoleAdmin in Table()[i].middleware ==>
      Table()[i].middleware == [AuthApi, RoleAdmin]
  {
  }

  /** Every route but the three public ones requires `auth:api`, and puts it
      first. */
  lemma OnlyPublicRoutesSkipAuthentication()
    ensures forall i :: 0 <= i < |Table()| ==>
      (Table()[i].middleware == [] <==>
       Table()[i].handler in {Action(AuthController, "login"), Action(AuthController, "register"), CheckTokenClosure})
    ensures forall i :: 0 <= i < |Table()| && Table()[i].middleware != [] ==> Table()[i].middleware[0] == AuthApi
  {
  }

  /** GET and DELETE on `admin/users` are registered twice: first behind
      `role:admin` to the admin controller, then behind `auth:api` alone to
      the authentication controller. */
  lemma AdminUsersRegisteredTwice()
    ensures RoutesFor(Table(), Get, ["admin", "users"]) ==
      [ Route(Get, ["admin", "users"], [AuthApi, RoleAdmin], Action(AdminUserController, "index")),
        Route(Get, ["admin", "users"], [AuthApi], Action(AuthController, "getAllUsers")) ]
    ensures RoutesFor(Table(), Delete, ["admin", "users", "{id}"]) ==
      [ Route(Delete, ["admin", "users", "{id}"], [AuthApi, RoleAdmin], Action(AdminUserController, "destroy")),
        Route(Delete, ["admin", "users", "{id}"], [AuthApi], Action(AuthController, "deleteUser")) ]
  {
  }

  // ---------------------------------------------------------------------
  // Dispatch
  // ---------------------------------------------------------------------

  predicate Matches(x: Route, verb: Verb, uri: seq<string>)
  {
    x.verb == verb && x.uri == uri
  }

  /** The route the router serves for a verb and URI. Its route collection
      keeps one route per verb and URI, so a later registration replaces an
      earlier one: the last match wins. */
  function Dispatch(routes: seq<Route>, verb: Verb, uri: seq<string>): (r: Option<Route>)
    ensures r.None? <==> forall i :: 0 <= i < |routes| ==> !Matches(routes[i], verb, uri)
    ensures r.Some? ==> exists i :: (0 <= i < |routes| && routes[i] == r.value && Matches(routes[i], verb, uri) &&
      forall j :: i < j < |routes| ==> !Matches(routes[j], verb, uri))
    decreases |routes|
  {
    if routes == [] then None
    else if Matches(routes[|routes| - 1], verb, uri) then Some(routes[|routes| - 1])
    else
      var r := Dispatch(routes[..|routes| - 1], verb, uri);
      assert forall i :: 0 <= i < |routes| - 1 ==> routes[..|routes| - 1][i] == routes[i];
      r
  }

  /** The later registrations behind `auth:api` alone replace the
      `role:admin` ones: GET and DELETE on `admin/users` reach the
      authentication controller. */
  lemma AdminUsersServedByAuthController()
    ensures Dispatch(Table(), Get, ["admin", "users"]) ==
      Some(Route(Get, ["admin", "users"], [AuthApi], Action(AuthController, "getAllUsers")))
    ensures Dispatch(Table(), Delete, ["admin", "users", "{id}"]) ==
      Some(Route(Delete, ["admin", "users", "{id}"], [AuthApi], Action(AuthController, "deleteUser")))
  {
    assert Dispatch(Table(), Get, ["admin", "users"]) ==
      Some(Route(Get, ["admin", "users"], [AuthApi], Action(AuthController, "getAllUsers")));
  }

  /** The admin user controller's actions are registered at positions 8
      and 9 of the table only. */
  lemma AdminUserRoutesAt()
    ensures forall i :: 0 <= i < |Table()| ==>
      (Table()[i].handler in {Action(AdminUserController, "index"), Action(AdminUserController, "destroy")} <==>
       i == 8 || i == 9)
  {
  }

  /** No request reaches the admin user controller: each of its routes is
      replaced by a later registration for the same verb and URI. */
  lemma AdminUserControllerUnreachable(verb: Verb, uri: seq<string>)
    ensures Dispatch(Table(), verb, uri).Some? ==>
      Dispatch(Table(), verb, uri).value.handler !in
        {Action(AdminUserController, "index"), Action(AdminUserController, "destroy")}
  {
    var t := Table();
    var r := Dispatch(t, verb, uri);
    if r.Some? {
      var i :| 0 <= i < |t| && t[i] == r.value && Matches(t[i], verb, uri) &&
        forall j :: i < j < |t| ==> !Matches(t[j], verb, uri);
      AdminUserRoutesAt();
    }
  }

  // ---------------------------------------------------------------------
  // The `/check-token` closure
  // ---------------------------------------------------------------------

  /** The exceptions the token check can throw. The first two are
      subclasses of the third, which also covers a missing token. */
  datatype JwtException = TokenExpiredException | TokenInvalidException | JWTException

  /** What parsing and checking the bearer token gives: the subject's key,
      or an exception. */
  datatype TokenCheck = Verified(subject: nat) | Threw(e: JwtException)

  /** The closure's answer. The catch clauses are tried in order, the two
      specific ones before the general one; the subject is serialized with
      its hidden attributes left out, or is `false` when its row is gone. */
  function CheckToken(check: TokenCheck, users: map<nat, UserRecord>): (r: Response)
    ensures r.status == Unauthorized <==> check.Threw?
    ensures r.status != Unauthorized ==> r.status == Ok
    ensures check == Threw(TokenExpiredException) ==> r.body == TokenRejected("Token expiré")
    ensures check == Threw(TokenInvalidException) ==> r.body == TokenRejected("Token invalide")
    ensures check == Threw(JWTException) ==> r.body == TokenRejected("Token absent")
    ensures check.Verified? ==> r.body.TokenAccepted? && r.body.message == "Token valide"
    ensures check.Verified? && check.subject in users ==> r.body.subject == Some(ToArray(users[check.subject]))
    ensures check.Verified? && check.subject !in users ==> r.body.subject.None?
  {
    match check
    case Verified(id) =>
      Response(Ok, TokenAccepted("Token valide", if id in users then Some(ToArray(users[id])) else None))
    case Threw(TokenExpiredException) => Response(Unauthorized, TokenRejected("Token expiré"))
    case Threw(TokenInvalidException) => Response(Unauthorized, TokenRejected("Token invalide"))
    case Threw(JWTException) => Response(Unauthorized, TokenRejected("Token absent"))
  }

  /** The three failures are told apart: each gives its own message. */
  lemma TokenFailuresDistinguished(users: map<nat, UserRecord>, a: JwtException, b: JwtException)
    requires a != b
    ensures CheckToken(Threw(a), users) != CheckToken(Threw(b), users)
  {
  }
}

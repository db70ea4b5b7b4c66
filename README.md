# User access rules of a Laravel authentication backend, in Dafny

This project models the rules that the backend's controllers apply to its
users table: who may register, how a profile changes, who may list users,
and the two different paths that delete a user. It also models what the
`User` model hides from serialization and accepts through mass assignment,
and the API route table with the middleware guarding each route.

- `user_model.dfy` (module `UserModel`, from `app/Models/User.php`): a row is
  the model's attribute map plus the set of role names kept by the permission
  package. It has the `$fillable` filter (`Fill`), the `$hidden` filter
  (`ToArray`), the `$casts`, and the JWT subject and claims getters.
- `http.dfy` (module `Http`): the status codes and JSON body shapes.
- `controllers.dfy` (module `Controllers`, from `AuthController` and
  `Admin\UserController`): the class `UserTable` holds the table as a
  `map<nat, UserRecord>` and the next auto-increment key. `Register`,
  `UpdateProfile`, `DeleteUser` and `Destroy` are methods that change the map
  in place. `Login`, `Logout`, `Profile`, `GetAllUsers` and `Index` only read
  it, so they are functions. The guard chains of the two delete paths are the
  pure functions `DeleteUserOutcome` and `DestroyOutcome`, and the methods
  apply them. `Valid()` says that every row's `id` attribute is its key,
  every key is below the next key, and no two rows share an email. Every
  method keeps it.
- `routes.dfy` (module `ApiRoutes`, from `routes/api.php`): the route table
  as data and the `/check-token` closure as a function.

The plain `role` attribute and the role set are kept apart on purpose.
`AuthController` checks and assigns roles through the role set
(`hasRole`, `assignRole`). `Admin\UserController::destroy` compares the
plain `role` attribute of both users. Registration never sets that attribute,
and mass assignment cannot set it because `role` is not fillable.
`PeerAdminGuardIgnoresRoleSet` shows the result: two users who are admins
through the role set, with no `role` attribute, are not protected from each
other by `destroy`.

The two delete paths differ in their guards:
- `destroy` refuses self-deletion and deletion between two users whose
  `role` attribute is `admin`.
- `deleteUser` checks only that the caller holds the admin role
  (`DeletePathsDisagreeOnSelf`).

Both controllers are registered on the same URIs. The first registration
goes through `role:admin` to `Admin\UserController` (routes/api.php:44-47).
The second goes through `auth:api` alone to `AuthController`
(routes/api.php:48-49). The route table keeps both
(`AdminUsersRegisteredTwice`). The router keeps only one route per verb and
URI, and a later registration replaces an earlier one (`Dispatch`). So
GET and DELETE on `admin/users` reach `getAllUsers` and `deleteUser`, and
`index` and `destroy` cannot be reached through these routes
(`AdminUsersServedByAuthController`, `AdminUserControllerUnreachable`).

`updateProfile` runs its validation inside its `try`. A failed rule, a taken
email included, is therefore answered by the catch-all with 500, not with the
framework's 422.

The specification functions the contracts are stated with:
- `Controllers.RegisterRulesPass`: the rules of `register`
  (app/Http/Controllers/AuthController.php:24-30).
- `Controllers.ProfileRulesPass`: the rules of `updateProfile`
  (AuthController.php:221-225).
- `Controllers.LoginRulesPass`: the rules of `login` (AuthController.php:136-139).
- `Controllers.Registered`: the row `register` creates
  (AuthController.php:38-48).
- `Http.View`: the hand-built `user` object
  (AuthController.php:55-62, 155-162, 198-205, 236-243).
- `UserModel.JWTIdentifier`: the token subject (app/Models/User.php:42-45).
- `ApiRoutes.RouteFile`: the route file with its groups, as written
  (routes/api.php:13-49).
- `ApiRoutes.Table`: the route file expanded into its twelve registrations.

Oracles and inputs that the model takes as parameters:
- the password hasher `Hash::make` (`UserTable.hashMake`);
- the token issued by `JWTAuth::fromUser` (`issue`, applied to the subject
  and the custom claims);
- the outcome of `JWTAuth::attempt` (`Attempt`);
- whether `JWTAuth::invalidate` succeeded (`Logout`'s argument);
- the outcome of `parseToken()->authenticate()` (`TokenCheck`);
- the stored photo path (`photoPath`);
- the framework's format validators: email syntax, date, image
  (`FormatChecks`).

The caller of a controller operation is the authenticated user's key, and it
must be in the table. The `auth:api` middleware on every route that reaches
these operations is what the controllers rely on for that.

## Model

| member | source | states |
|---|---|---|
| `UserModel.CastOf` | app/Models/User.php:31-35 | `password` is cast as hashed and `birth` as a date; only `email_verified_at`, `password` and `birth` have casts |
| `UserModel.CastForStorage` | app/Models/User.php:33 | setting a string or a number on the hashed attribute stores the digest of its text; null and digests are kept; an attribute cast as hashed holds only null or a digest |
| `UserModel.Fill` | app/Models/User.php:15-24 | mass assignment sets exactly the fillable keys of the input, each cast for storage; every other attribute and the role set keep their values |
| `UserModel.FillAccepted` | app/Models/User.php:15-24 | an input of fillable keys only, whose password is null or already a digest, is stored exactly as given |
| `UserModel.MassAssignmentDropsGuardedKeys` | app/Models/User.php:15-24 | no input can set `role`, `remember_token` or `id` through mass assignment |
| `UserModel.PasswordStoredHashed` | app/Models/User.php:31-35 | a password given to mass assignment as text or a number is stored as the digest of its text and never as the value given |
| `UserModel.ToArray` | app/Models/User.php:26-29 | serialization never includes `password` or `remember_token`, and keeps every other attribute with its value |
| `UserModel.JWTCustomClaims` | app/Models/User.php:52-55 | the custom JWT claims are always empty |
| `Controllers.SubjectIsPrimaryKey` | app/Models/User.php:42-45 | in a well-formed table, the JWT subject of every row is its primary key |
| `Controllers.RegisteredRow` | app/Http/Controllers/AuthController.php:33-44 | the row created by registration has exactly the key, name, email, password, birth and photo attributes; the photo is null when no file was sent |
| `Controllers.RegisteredCredentials` | app/Http/Controllers/AuthController.php:38-48 | the new row stores the hash of the password, never the password, has the single role `user`, and has no plain `role` attribute |
| `Controllers.ProfileUpdated` | app/Http/Controllers/AuthController.php:227-231 | a profile update sets name, email and birth; every other attribute, password and photo included, and the role set are unchanged |
| `Controllers.Listing` | app/Http/Controllers/AuthController.php:83-87 | the listing has one entry per row, the row's serialized form, with no password or remember token |
| `Controllers.DeleteUserOutcome` | app/Http/Controllers/AuthController.php:96-129 | 403 if and only if the caller lacks the admin role; otherwise 404 if and only if the id is unknown; otherwise 200; each with its message |
| `Controllers.DestroyOutcome` | app/Http/Controllers/Admin/UserController.php:22-61 | 404 if and only if the id is unknown, before any 403; then 403 with the self message when the id is the caller's; then 403 with the peer message when both `role` attributes are `admin`; otherwise 200 |
| `Controllers.UserTable.Register` | app/Http/Controllers/AuthController.php:22-71 | a request that fails validation, a taken email included, gets 422 and the table is unchanged; otherwise exactly one row is added under the next key, with a 201 and a token issued for that key and empty claims |
| `Controllers.UserTable.Login` | app/Http/Controllers/AuthController.php:134-171 | a rejected credential check gets 401 with one fixed message; a token-service failure gets 500; a success returns the token and the user's view |
| `Controllers.UserTable.Logout` | app/Http/Controllers/AuthController.php:174-189 | 200 if and only if the token service invalidated the token, otherwise 500 |
| `Controllers.UserTable.Profile` | app/Http/Controllers/AuthController.php:192-214 | 200 with the caller's own row as the `user` object (key, name, email, birth, photo, roles); the key is the caller's |
| `Controllers.UserTable.UpdateProfile` | app/Http/Controllers/AuthController.php:217-252 | any validation failure, an email held by another user included, gets 500 with the table unchanged; otherwise only the caller's row changes, as `ProfileUpdated` says; a request that keeps the caller's current email and passes the other rules gets 200 |
| `Controllers.UserTable.GetAllUsers` | app/Http/Controllers/AuthController.php:72-95 | 403 if and only if the caller lacks the admin role; otherwise 200 with every row of the table |
| `Controllers.UserTable.DeleteUser` | app/Http/Controllers/AuthController.php:96-129 | answers as `DeleteUserOutcome`; on 200 exactly the target row is removed, the caller's own included; on any other answer the table is unchanged |
| `Controllers.UserTable.Index` | app/Http/Controllers/Admin/UserController.php:12-19 | 200 with every row serialized, whoever the caller |
| `Controllers.UserTable.Destroy` | app/Http/Controllers/Admin/UserController.php:22-61 | answers as `DestroyOutcome`; on 200 exactly the target row is removed; on any other answer the table is unchanged |
| `Controllers.RegisterKeepsWellFormed` | app/Http/Controllers/AuthController.php:24-30 | adding a row under the next key, with an email no row holds, keeps keys and emails unique |
| `Controllers.UpdateKeepsWellFormed` | app/Http/Controllers/AuthController.php:221-231 | changing the caller's email to one no other row holds keeps emails unique |
| `Controllers.OwnEmailPasses` | app/Http/Controllers/AuthController.php:223 | in a well-formed table, the caller's current email is never taken under the rule that ignores the caller's row |
| `Controllers.AdminListingsAgree` | app/Http/Controllers/AuthController.php:75-87 | for a caller with the admin role, `getAllUsers` answers exactly as `index` |
| `Controllers.LoginFailureIsUniform` | app/Http/Controllers/AuthController.php:143-148 | a rejected login answers the same whatever email and password were sent |
| `Controllers.DeletePathsDisagreeOnSelf` | app/Http/Controllers/AuthController.php:101-121 | an admin deleting their own row succeeds through `deleteUser` and is refused by `destroy` |
| `Controllers.PeerAdminGuardIgnoresRoleSet` | app/Http/Controllers/Admin/UserController.php:36-41 | in any table, a caller deleting another user gets 200 from `destroy` when both hold the admin role through the role set and neither has a `role` attribute |
| `ApiRoutes.Group` | routes/api.php:32-47 | a group puts its middleware before each route's own and its prefix before each route's URI |
| `ApiRoutes.RoutesFromMatches` | routes/api.php:13-49 | the lookup from a position returns exactly the registrations there for the verb and URI |
| `ApiRoutes.RoutesForMatches` | routes/api.php:13-49 | a lookup returns exactly the registrations for the verb and URI |
| `ApiRoutes.GroupsExpand` | routes/api.php:13-49 | the route file's groups expand to the twelve registrations of the table |
| `ApiRoutes.PublicEntryPoints` | routes/api.php:13-17 | `/login`, `/register` and `/check-token` are each registered once, with no middleware |
| `ApiRoutes.AuthenticatedRoutes` | routes/api.php:32-37 | `/logout`, GET and POST `/profile` and `/users` are each registered once, behind `auth:api` alone |
| `ApiRoutes.AdminGroupsAuthenticateFirst` | routes/api.php:40-47 | every route guarded by `role:admin` has the middleware list `auth:api`, `role:admin`, in that order |
| `ApiRoutes.OnlyPublicRoutesSkipAuthentication` | routes/api.php:13-49 | a route has no middleware if and only if it is login, register or check-token; every other route puts `auth:api` first |
| `ApiRoutes.AdminUsersRegisteredTwice` | routes/api.php:44-49 | GET and DELETE on `admin/users` are each registered twice: first behind `auth:api` and `role:admin` to the admin controller, then behind `auth:api` alone to the authentication controller |
| `ApiRoutes.Dispatch` | routes/api.php:13-49 | the route served for a verb and URI is a registration for them with no later one; none when nothing is registered for them |
| `ApiRoutes.AdminUsersServedByAuthController` | routes/api.php:44-49 | GET and DELETE on `admin/users` are served by `getAllUsers` and `deleteUser` behind `auth:api` alone |
| `ApiRoutes.AdminUserControllerUnreachable` | routes/api.php:44-49 | no verb and URI is served by the admin user controller's `index` or `destroy` |
| `ApiRoutes.CheckToken` | routes/api.php:17-29 | a verified token gives 200 "Token valide" with the serialized user; an expired token, an invalid token and any other token failure each give 401 with their own message |
| `ApiRoutes.TokenFailuresDistinguished` | routes/api.php:22-27 | two different token failures never give the same answer |

## Left out

- Token issuance, verification, expiry and invalidation are oracles: the model does not say how tokens are made or checked, or whether logout is idempotent.
- `Hash::make` is an arbitrary function to a digest type. The model does not compare passwords.
- `UserModel.CastForStorage`: a digest is a value of its own kind in the model. The framework recognises a digest by the shape of the string. So a plain string that already has the shape of a hash is kept as it is, and a digest made with another algorithm is refused. The model does not capture either case.
- Eloquent timestamps are not modelled. `create` also sets `created_at` and `updated_at`, and `update` changes `updated_at`. `RegisteredRow` ("exactly these keys") and `ProfileUpdated` ("every other attribute unchanged") hold of the model's record but not of those two columns.
- A row that `User::all()` loads carries every column of the table, null ones included. The model's row holds only the attributes that were set, so `Listing` and `Index` omit columns that were never written.
- The `date` and `datetime` casts rewrite a value into the storage format when it is set. The model stores the request's date string as given.
- The 422 answer to a failed `register` or `login` validation is the framework's answer to a client that asks for JSON. Any other client is redirected back, which the model does not represent.
- The global `TrimStrings` and `ConvertEmptyStringsToNull` middleware are not modelled. `Present` says that a value holds a character outside PHP's trim set, so a blank value fails `required` as it does after trimming. But `max:255` is applied to the untrimmed length, and the untrimmed strings are stored. The middleware also trims Unicode spaces that the model does not treat as blank.
- Photo upload and storage are file I/O. The stored path is an input.
- The email, date and image validators and the photo size limit are booleans in `FormatChecks`. The `string` rules hold by typing.
- The catch-all 500 answers of `register`, `getAllUsers`, `deleteUser`, `profile` and `destroy` are not modelled. They answer exceptions from the database, the storage or the token service, and the model has no such failures. In particular, a failure in `register` after the row is written would leave the row in place. The model does not show that.
- The `error` detail that the 500 bodies carry is left out.
- `Dispatch` models how the router replaces a route registered twice, reasoning from how its route collection is keyed. Route caching and domain-specific routes are not modelled.
- The `auth:api` and `role:admin` middleware are recorded, not run. The controller operations take the authenticated caller's key as given.
- `{id}` route parameters are taken as natural numbers. A non-numeric id is not modelled.
- Email comparison is exact. A case-insensitive database collation is not modelled.
- The check-then-write race on email uniqueness is not modelled, because the model is sequential.
- `User::all()` order is not modelled: listings are maps keyed by primary key.
- Date formatting of `birth` on output is not modelled: dates are opaque strings.
- The web view and redirect methods of `AuthController` (lines 255-288) only render pages.
- The debug logging middleware, the application bootstrap, and the roles-and-permissions seeder are not part of this model. From the seeder, only the role names `admin` and `user` are used.
- `AppController` and `AdminController` appear only as route targets. Their source is not part of this model.

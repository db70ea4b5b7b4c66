/** The JSON responses the controllers and the `/check-token` closure send:
    a status code and one of a few body shapes. */
module Http {
  import opened UserModel

  const Ok := 200
  const Created := 201
  const Unauthorized := 401
  const Forbidden := 403
  const NotFound := 404
  const Unprocessable := 422
  const ServerError := 500

  /** The `user` object the authentication controller builds field by field:
      id, name, email, birth, photo and role names. It has no password field. */
  datatype UserView = UserView(id: Value, name: Value, email: Value, birth: Value, photo: Value,
                               roles: set<string>)

  datatype Body =
      /** `{success, message}` */
    | Notice(success: bool, message: string)
      /** `{success: true, message, token, user}` after registration or login */
    | Session(message: string, token: string, user: UserView)
      /** `{success: true, [message], user}` for the profile endpoints */
    | Account(note: Option<string>, user: UserView)
      /** `{success: true, users}`: serialized rows, keyed by primary key */
    | Users(users: map<nat, Attributes>)
      /** `{error}` from `/check-token` */
    | TokenRejected(error: string)
      /** `{message, user}` from `/check-token`; `None` is the `false` the
          token guard yields when the subject no longer exists */
    | TokenAccepted(message: string, subject: Option<Attributes>)
      /** the framework's rendering of a failed request validation */
    | ValidationErrors

  datatype Response = Response(status: nat, body: Body)

  /** The hand-built `user` object of a row. */
  function View(u: UserRecord): UserView
  {
    UserView(Attr(u, "id"), Attr(u, "name"), Attr(u, "email"), Attr(u, "birth"), Attr(u, "photo"), u.roles)
  }
}

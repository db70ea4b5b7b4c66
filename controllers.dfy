/** The user table and the operations the two controllers run on it:
    `AuthController` (register, login, logout, profile, updateProfile,
    getAllUsers, deleteUser) and `Admin\UserController` (index, destroy).
    The guard chains are pure functions of the table; the operations that
    write the table are methods of `UserTable` that apply them. */
module Controllers {
  import opened UserModel
  import opened Http

  /** Role names of the permission package. */
  const AdminRole := "admin"
  const MemberRole := "user"

  /** The users table, keyed by primary key. */
  type Table = map<nat, UserRecord>

  /** Outcomes of the framework validators that the model does not
      reimplement: email syntax, date parsing, image type and size. */
  datatype FormatChecks = FormatChecks(email: bool, date: bool, image: bool)

  datatype RegisterRequest = RegisterRequest(name: string, email: string, password: string,
                                             passwordConfirmation: Option<string>, birth: string)

  datatype ProfileRequest = ProfileRequest(name: string, email: string, birth: string)

  datatype LoginRequest = LoginRequest(email: string, password: string)

  /** What the token service's credential check gives back: no match, a
      token issued for a user, or a token-service exception. */
  datatype Attempt = Rejected | Issued(token: string, userId: nat) | AttemptFailed

  // ---------------------------------------------------------------------
  // Table invariants and validation rules
  // ---------------------------------------------------------------------

  /** The characters PHP's `trim` strips; a value made only of them fails
      `required`. */
  const TrimmedChars: set<char> := {' ', '\t', '\n', '\r', '\0', '\U{0B}'}

  predicate Present(s: string)
  {
    exists i :: 0 <= i < |s| && s[i] !in TrimmedChars
  }

  /** `hasRole`: membership in the permission package's role set. */
  predicate HasRole(u: UserRecord, role: string)
  {
    role in u.roles
  }

  /** The plain `role` attribute compared strictly, as `===` does: an absent
      attribute reads as null and never equals a string. */
  predicate RoleAttributeIs(u: UserRecord, role: string)
  {
    Attr(u, "role") == Text(role)
  }

  /** The `unique:users,email[,except]` rule fails: some row other than
      `except` already holds the email. */
  predicate EmailTaken(users: Table, email: string, except: Option<nat>)
  {
    exists k :: k in users && except != Some(k) && Attr(users[k], "email") == Text(email)
  }

  ghost predicate UniqueEmails(users: Table)
  {
    forall a, b :: a in users && b in users && a != b && Attr(users[a], "email").Text? ==>
      Attr(users[a], "email") != Attr(users[b], "email")
  }

  /** Every row knows its own key, every key is below the next
      auto-increment value, and no two rows share an email. */
  ghost predicate WellFormed(users: Table, nextId: nat)
  {
    && (forall k :: k in users ==> k < nextId && Attr(users[k], "id") == Int(k))
    && UniqueEmails(users)
  }

  /** The rules of `register`'s request validation. */
  predicate RegisterRulesPass(users: Table, req: RegisterRequest, checks: FormatChecks)
  {
    && Present(req.name) && |req.name| <= 255
    && Present(req.email) && checks.email && !EmailTaken(users, req.email, None)
    && Present(req.password) && |req.password| >= 6
    && req.passwordConfirmation == Some(req.password)
    && Present(req.birth) && checks.date
    && checks.image
  }

  /** The rules of `updateProfile`'s request validation; the uniqueness rule
      ignores the caller's own row. */
  predicate ProfileRulesPass(users: Table, callerId: nat, req: ProfileRequest, checks: FormatChecks)
  {
    && Present(req.name) && |req.name| <= 255
    && Present(req.email) && checks.email && !EmailTaken(users, req.email, Some(callerId))
    && Present(req.birth) && checks.date
  }

  /** The rules of `login`'s request validation. */
  predicate LoginRulesPass(req: LoginRequest, checks: FormatChecks)
  {
    Present(req.email) && checks.email && Present(req.password)
  }

  // ---------------------------------------------------------------------
  // Rows written by register and updateProfile
  // ---------------------------------------------------------------------

  function PhotoValue(photoPath: Option<string>): Value
  {
    if photoPath.Some? then Text(photoPath.value) else Null
  }

  /** The array `register` hands to `User::create`. */
  function RegistrationInput(req: RegisterRequest, photoPath: Option<string>,
                             hashMake: string -> Digest): Attributes
  {
    map["name" := Text(req.name), "email" := Text(req.email),
        "password" := Hashed(hashMake(req.password)),
        "birth" := Text(req.birth), "photo" := PhotoValue(photoPath)]
  }

  /** The row `register` creates: mass assignment of the registration
      array, the auto-increment key, and the default role. */
  function Registered(id: nat, req: RegisterRequest, photoPath: Option<string>,
                      hashMake: string -> Digest): UserRecord
  {
    var created := Fill(Blank, RegistrationInput(req, photoPath, hashMake), hashMake);
    var saved := created.(attrs := created.attrs["id" := Int(id)]);
    saved.(roles := saved.roles + {MemberRole})
  }

  /** The registered row holds exactly the key, name, email, password,
      birth and photo, as given; the photo is null when no file was sent. */
  lemma RegisteredRow(id: nat, req: RegisterRequest, photoPath: Option<string>, hashMake: string -> Digest)
    ensures var u := Registered(id, req, photoPath, hashMake);
      && u.attrs.Keys == {"id", "name", "email", "password", "birth", "photo"}
      && Attr(u, "id") == Int(id)
      && Attr(u, "name") == Text(req.name) && Attr(u, "email") == Text(req.email)
      && Attr(u, "birth") == Text(req.birth)
      && (photoPath.None? ==> Attr(u, "photo") == Null)
      && (photoPath.Some? ==> Attr(u, "photo") == Text(photoPath.value))
  {
    var input := RegistrationInput(req, photoPath, hashMake);
    assert input.Keys == {"name", "email", "password", "birth", "photo"} <= FillableKeys;
    FillAccepted(Blank, input, hashMake);
  }

  /** The registered row stores the digest of the password, never the
      password itself, holds the default role `user` and no plain `role`
      attribute. */
  lemma RegisteredCredentials(id: nat, req: RegisterRequest, photoPath: Option<string>, hashMake: string -> Digest)
    ensures var u := Registered(id, req, photoPath, hashMake);
      && Attr(u, "password") == Hashed(hashMake(req.password))
      && Attr(u, "password") != Text(req.password)
      && Attr(u, "role") == Null
      && u.roles == {MemberRole}
  {
    var input := RegistrationInput(req, photoPath, hashMake);
    assert input.Keys == {"name", "email", "password", "birth", "photo"} <= FillableKeys;
    FillAccepted(Blank, input, hashMake);
  }

  /** The row after `updateProfile`: mass assignment of name, email and
      birth and nothing else. */
  function ProfileUpdated(u: UserRecord, req: ProfileRequest, hashMake: string -> Digest): (r: UserRecord)
    ensures r.roles == u.roles
    ensures Attr(r, "name") == Text(req.name) && Attr(r, "email") == Text(req.email)
    ensures Attr(r, "birth") == Text(req.birth)
    ensures forall k :: k !in {"name", "email", "birth"} ==> Attr(r, k) == Attr(u, k)
  {
    Fill(u, map["name" := Text(req.name), "email" := Text(req.email), "birth" := Text(req.birth)], hashMake)
  }

  // ---------------------------------------------------------------------
  // Guard chains and listings
  // ---------------------------------------------------------------------

  /** `User::all()` serialized: every row, hidden attributes left out. */
  function Listing(users: Table): (l: map<nat, Attributes>)
    ensures l.Keys == users.Keys
    ensures forall k :: k in l ==> l[k] == ToArray(users[k])
    ensures forall k :: k in l ==> "password" !in l[k] && "remember_token" !in l[k]
  {
    map k | k in users :: ToArray(users[k])
  }

  /** `AuthController::deleteUser`: role check, then lookup; no protection
      of the caller's own row or of other admins. */
  function DeleteUserOutcome(users: Table, callerId: nat, id: nat): (r: Response)
    requires callerId in users
    ensures r.status == Forbidden <==> !HasRole(users[callerId], AdminRole)
    ensures r.status == NotFound <==> HasRole(users[callerId], AdminRole) && id !in users
    ensures r.status == Ok <==> HasRole(users[callerId], AdminRole) && id in users
    ensures r.status == Forbidden ==> r.body == Notice(false, "Accès refusé")
    ensures r.status == NotFound ==> r.body == Notice(false, "Utilisateur non trouvé")
    ensures r.status == Ok ==> r.body == Notice(true, "Utilisateur supprimé avec succès")
  {
    if !HasRole(users[callerId], AdminRole) then Response(Forbidden, Notice(false, "Accès refusé"))
    else if id !in users then Response(NotFound, Notice(false, "Utilisateur non trouvé"))
    else Response(Ok, Notice(true, "Utilisateur supprimé avec succès"))
  }

  const SelfDeletionMessage := "Vous ne pouvez pas vous supprimer vous-même."
  const PeerAdminMessage := "Vous ne pouvez pas supprimer un autre administrateur."

  /** `Admin\UserController::destroy`: lookup, then the self-deletion guard,
      then the peer-admin guard, which reads the plain `role` attribute of
      both rows. */
  function DestroyOutcome(users: Table, callerId: nat, id: nat): (r: Response)
    requires callerId in users
    ensures r.status == NotFound <==> id !in users
    ensures r.status == Forbidden <==>
      id in users && (id == callerId ||
                      (RoleAttributeIs(users[id], AdminRole) && RoleAttributeIs(users[callerId], AdminRole)))
    ensures r.status == Ok <==>
      id in users && id != callerId &&
      !(RoleAttributeIs(users[id], AdminRole) && RoleAttributeIs(users[callerId], AdminRole))
    ensures r.status == NotFound ==> r.body == Notice(false, "Utilisateur non trouvé.")
    ensures id == callerId ==> r.body == Notice(false, SelfDeletionMessage)
    ensures r.status == Forbidden && id != callerId ==> r.body == Notice(false, PeerAdminMessage)
    ensures r.status == Ok ==> r.body == Notice(true, "Utilisateur supprimé avec succès.")
  {
    if id !in users then Response(NotFound, Notice(false, "Utilisateur non trouvé."))
    else if callerId == id then Response(Forbidden, Notice(false, SelfDeletionMessage))
    else if RoleAttributeIs(users[id], AdminRole) && RoleAttributeIs(users[callerId], AdminRole) then
      Response(Forbidden, Notice(false, PeerAdminMessage))
    else Response(Ok, Notice(true, "Utilisateur supprimé avec succès."))
  }

  // ---------------------------------------------------------------------
  // The table and the controller operations
  // ---------------------------------------------------------------------

  class UserTable {
    var users: Table
    /** The next auto-increment primary key. */
    var nextId: nat
    /** The password hashing oracle (`Hash::make`). */
    const hashMake: string -> Digest

    ghost predicate Valid()
      reads this
    {
      WellFormed(users, nextId)
    }

    constructor (hashMake: string -> Digest)
      ensures Valid()
      ensures users == map[] && nextId == 1 && this.hashMake == hashMake
    {
      users := map[];
      nextId := 1;
      this.hashMake := hashMake;
    }

    /** `AuthController::register`. A request that fails validation is
        answered before anything is written. Otherwise exactly one row is
        added, and a token issued for its subject and claims is returned. */
    method Register(req: RegisterRequest, checks: FormatChecks, photoPath: Option<string>,
                    issue: (Value, Attributes) -> string) returns (resp: Response)
      requires Valid()
      modifies this
      ensures Valid()
      ensures !RegisterRulesPass(old(users), req, checks) ==>
        resp == Response(Unprocessable, ValidationErrors) &&
        users == old(users) && nextId == old(nextId)
      ensures RegisterRulesPass(old(users), req, checks) ==>
        && old(nextId) !in old(users)
        && users == old(users)[old(nextId) := Registered(old(nextId), req, photoPath, hashMake)]
        && nextId == old(nextId) + 1
        && resp == Response(Created, Session("Inscription réussie",
                                             issue(Int(old(nextId)), map[]),
                                             View(users[old(nextId)])))
    {
      if !RegisterRulesPass(users, req, checks) {
        resp := Response(Unprocessable, ValidationErrors);
        return;
      }
      var id := nextId;
      var created := Registered(id, req, photoPath, hashMake);
      RegisteredRow(id, req, photoPath, hashMake);
      RegisterKeepsWellFormed(users, nextId, req, created);
      users := users[id := created];
      nextId := nextId + 1;
      var token := issue(JWTIdentifier(created), JWTCustomClaims(created));
      resp := Response(Created, Session("Inscription réussie", token, View(created)));
    }

    /** `AuthController::login`. */
    function Login(req: LoginRequest, checks: FormatChecks, attempt: Attempt): (r: Response)
      reads this
      requires attempt.Issued? ==> attempt.userId in users
      ensures !LoginRulesPass(req, checks) ==> r == Response(Unprocessable, ValidationErrors)
      ensures r.status == Unauthorized <==> LoginRulesPass(req, checks) && attempt.Rejected?
      ensures r.status == Unauthorized ==> r.body == Notice(false, "Identifiants invalides")
      ensures r.status == ServerError <==> LoginRulesPass(req, checks) && attempt.AttemptFailed?
      ensures LoginRulesPass(req, checks) && attempt.Issued? ==>
        r.status == Ok && r.body.Session? && r.body.token == attempt.token &&
        r.body.user == View(users[attempt.userId])
    {
      if !LoginRulesPass(req, checks) then Response(Unprocessable, ValidationErrors)
      else match attempt
        case Rejected => Response(Unauthorized, Notice(false, "Identifiants invalides"))
        case AttemptFailed => Response(ServerError, Notice(false, "Erreur lors de la création du token"))
        case Issued(token, uid) => Response(Ok, Session("Connexion réussie", token, View(users[uid])))
    }

    /** `AuthController::logout`: the token service either invalidates the
        presented token or throws. The table is not involved. */
    function Logout(invalidated: bool): (r: Response)
      ensures r.status == Ok <==> invalidated
      ensures !invalidated ==> r == Response(ServerError, Notice(false, "Erreur lors de la déconnexion"))
    {
      if invalidated then Response(Ok, Notice(true, "Déconnexion réussie"))
      else Response(ServerError, Notice(false, "Erreur lors de la déconnexion"))
    }

    /** `AuthController::profile`: the authenticated caller's own row. */
    function Profile(callerId: nat): (r: Response)
      reads this
      requires Valid() && callerId in users
      ensures r.status == Ok && r.body.Account? && r.body.note.None?
      ensures r.body.user == View(users[callerId])
      ensures r.body.user.id == Int(callerId)
    {
      Response(Ok, Account(None, View(users[callerId])))
    }

    /** `AuthController::updateProfile`. Any validation failure, a taken
        email included, is caught by the catch-all and answered with 500,
        the table unchanged. Otherwise only the caller's name, email and
        birth change. */
    method UpdateProfile(callerId: nat, req: ProfileRequest, checks: FormatChecks) returns (resp: Response)
      requires Valid() && callerId in users
      modifies this
      ensures Valid() && nextId == old(nextId)
      ensures !ProfileRulesPass(old(users), callerId, req, checks) ==>
        resp == Response(ServerError, Notice(false, "Erreur lors de la mise à jour du profil")) &&
        users == old(users)
      ensures ProfileRulesPass(old(users), callerId, req, checks) ==>
        && users == old(users)[callerId := ProfileUpdated(old(users)[callerId], req, hashMake)]
        && resp == Response(Ok, Account(Some("Profil mis à jour"), View(users[callerId])))
      ensures Attr(old(users)[callerId], "email") == Text(req.email) &&
              Present(req.name) && |req.name| <= 255 && Present(req.email) && checks.email &&
              Present(req.birth) && checks.date ==>
        resp.status == Ok
    {
      if Attr(users[callerId], "email") == Text(req.email) {
        OwnEmailPasses(users, nextId, callerId, req.email);
      }
      if !ProfileRulesPass(users, callerId, req, checks) {
        resp := Response(ServerError, Notice(false, "Erreur lors de la mise à jour du profil"));
        return;
      }
      var updated := ProfileUpdated(users[callerId], req, hashMake);
      UpdateKeepsWellFormed(users, nextId, callerId, req, updated);
      users := users[callerId := updated];
      resp := Response(Ok, Account(Some("Profil mis à jour"), View(updated)));
    }

    /** `AuthController::getAllUsers`: gated by the caller's role set. */
    function GetAllUsers(callerId: nat): (r: Response)
      reads this
      requires callerId in users
      ensures r.status == Forbidden <==> !HasRole(users[callerId], AdminRole)
      ensures r.status == Forbidden ==> r.body == Notice(false, "Accès refusé")
      ensures r.status != Forbidden ==> r.status == Ok && r.body.Users? && r.body.users.Keys == users.Keys
      ensures r.status != Forbidden ==> r.body == Users(Listing(users))
    {
      if !HasRole(users[callerId], AdminRole) then Response(Forbidden, Notice(false, "Accès refusé"))
      else Response(Ok, Users(Listing(users)))
    }

    /** `AuthController::deleteUser`. */
    method DeleteUser(callerId: nat, id: nat) returns (resp: Response)
      requires Valid() && callerId in users
      modifies this
      ensures Valid() && nextId == old(nextId)
      ensures resp == DeleteUserOutcome(old(users), callerId, id)
      ensures resp.status == Ok ==> users == old(users) - {id}
      ensures resp.status != Ok ==> users == old(users)
    {
      resp := DeleteUserOutcome(users, callerId, id);
      if resp.status == Ok {
        users := users - {id};
      }
    }

    /** `Admin\UserController::index`: every row, with no role check of its
        own (the route's middleware is the only gate). */
    function Index(): (r: Response)
      reads this
      ensures r.status == Ok && r.body.Users? && r.body.users.Keys == users.Keys
      ensures forall k :: k in r.body.users ==> r.body.users[k] == ToArray(users[k])
    {
      Response(Ok, Users(Listing(users)))
    }

    /** `Admin\UserController::destroy`. */
    method Destroy(callerId: nat, id: nat) returns (resp: Response)
      requires Valid() && callerId in users
      modifies this
      ensures Valid() && nextId == old(nextId)
      ensures resp == DestroyOutcome(old(users), callerId, id)
      ensures resp.status == Ok ==> users == old(users) - {id}
      ensures resp.status != Ok ==> users == old(users)
    {
      resp := DestroyOutcome(users, callerId, id);
      if resp.status == Ok {
        users := users - {id};
      }
    }
  }

  // ---------------------------------------------------------------------
  // Properties
  // ---------------------------------------------------------------------

  /** Registration with a fresh email and the next key keeps the table
      well formed. */
  lemma RegisterKeepsWellFormed(users: Table, nextId: nat, req: RegisterRequest, created: UserRecord)
    requires WellFormed(users, nextId)
    requires !EmailTaken(users, req.email, None)
    requires Attr(created, "id") == Int(nextId) && Attr(created, "email") == Text(req.email)
    ensures nextId !in users
    ensures WellFormed(users[nextId := created], nextId + 1)
  {
    var users' := users[nextId := created];
    forall a, b | a in users' && b in users' && a != b && Attr(users'[a], "email").Text?
      ensures Attr(users'[a], "email") != Attr(users'[b], "email")
    {
      if a == nextId {
        assert b in users && Attr(users[b], "email") != Text(req.email);
      } else if b == nextId {
        assert a in users && Attr(users[a], "email") != Text(req.email);
      }
    }
  }

  /** An update whose email no other row holds keeps the table well formed. */
  lemma UpdateKeepsWellFormed(users: Table, nextId: nat, callerId: nat, req: ProfileRequest, updated: UserRecord)
    requires WellFormed(users, nextId) && callerId in users
    requires !EmailTaken(users, req.email, Some(callerId))
    requires Attr(updated, "id") == Attr(users[callerId], "id")
    requires Attr(updated, "email") == Text(req.email)
    ensures WellFormed(users[callerId := updated], nextId)
  {
    var users' := users[callerId := updated];
    forall a, b | a in users' && b in users' && a != b && Attr(users'[a], "email").Text?
      ensures Attr(users'[a], "email") != Attr(users'[b], "email")
    {
      if a == callerId {
        assert b in users && Attr(users[b], "email") != Text(req.email);
      } else if b == callerId {
        assert a in users && Attr(users[a], "email") != Text(req.email);
      }
    }
  }

  /** The uniqueness rule of a profile update ignores the caller's own row:
      keeping one's current email never counts as taken. */
  lemma OwnEmailPasses(users: Table, nextId: nat, callerId: nat, email: string)
    requires WellFormed(users, nextId) && callerId in users
    requires Attr(users[callerId], "email") == Text(email)
    ensures !EmailTaken(users, email, Some(callerId))
  {
    forall k | k in users && k != callerId
      ensures Attr(users[k], "email") != Text(email)
    {
      assert Attr(users[callerId], "email").Text?;
    }
  }

  /** The JWT subject of every stored row is its primary key. */
  lemma SubjectIsPrimaryKey(users: Table, nextId: nat, k: nat)
    requires WellFormed(users, nextId) && k in users
    ensures JWTIdentifier(users[k]) == Int(k)
  {
  }

  /** A caller who holds the admin role sees through `getAllUsers` exactly
      what `index` shows anyone. */
  lemma AdminListingsAgree(t: UserTable, callerId: nat)
    requires callerId in t.users && HasRole(t.users[callerId], AdminRole)
    ensures t.GetAllUsers(callerId) == t.Index()
  {
  }

  /** A failed credential check answers the same whatever the email and
      password were, so it does not tell whether the email is registered. */
  lemma LoginFailureIsUniform(t: UserTable, a: LoginRequest, b: LoginRequest, checks: FormatChecks)
    requires LoginRulesPass(a, checks) && LoginRulesPass(b, checks)
    ensures t.Login(a, checks, Rejected) == t.Login(b, checks, Rejected)
    ensures t.Login(a, checks, Rejected).status == Unauthorized
  {
  }

  /** The two delete paths disagree on the caller's own row: `deleteUser`
      lets an admin remove it, `destroy` never does. */
  lemma DeletePathsDisagreeOnSelf(users: Table, callerId: nat)
    requires callerId in users && HasRole(users[callerId], AdminRole)
    ensures DeleteUserOutcome(users, callerId, callerId).status == Ok
    ensures DestroyOutcome(users, callerId, callerId).status == Forbidden
  {
  }

  /** `destroy`'s peer-admin guard reads the plain `role` attribute, which
      registration never sets and mass assignment cannot set: two users who
      both hold the admin role through the role set are not protected from
      each other. */
  lemma PeerAdminGuardIgnoresRoleSet(users: Table, callerId: nat, id: nat)
    requires callerId in users && id in users && callerId != id
    requires HasRole(users[callerId], AdminRole) && HasRole(users[id], AdminRole)
    requires Attr(users[callerId], "role") == Null && Attr(users[id], "role") == Null
    ensures DestroyOutcome(users, callerId, id).status == Ok
  {
  }
}

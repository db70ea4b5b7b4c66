/** The `User` Eloquent model: a row's attributes, the mass-assignment
    (`$fillable`) and serialization (`$hidden`) filters, the attribute casts,
    and the two JWT-subject getters. Everything here is a pure function on
    records. */
module UserModel {

  datatype Option<+T> = None | Some(value: T)

  /** A one-way password digest, as produced by the hashing oracle. */
  datatype Digest = Digest(text: string)

  /** An attribute value as the model holds it. `Hashed` marks a value that
      is already a password digest; `Null` is PHP's null. */
  datatype Value = Null | Int(i: int) | Text(s: string) | Hashed(d: Digest)

  /** The model's attribute array, keyed by column name. */
  type Attributes = map<string, Value>

  /** A row of the users table: its attributes, and the role names the
      permission package attaches to it (kept in that package's own tables,
      not in an attribute). */
  datatype UserRecord = UserRecord(attrs: Attributes, roles: set<string>)

  /** A row with no attributes and no roles: what `User::create` fills. */
  const Blank := UserRecord(map[], {})

  /** `$fillable`: the only keys mass assignment accepts. */
  const FillableKeys: set<string> :=
    {"name", "email", "password", "latitude", "longitude", "birth", "description", "photo"}

  /** `$hidden`: the keys serialization leaves out. */
  const HiddenKeys: set<string> := {"password", "remember_token"}

  /** An attribute as the magic getter reads it: null when absent. */
  function Attr(u: UserRecord, key: string): Value
  {
    if key in u.attrs then u.attrs[key] else Null
  }

  datatype CastKind = DateTimeCast | HashedCast | DateCast

  /** `$casts`: the cast declared for an attribute, if any. */
  function CastOf(key: string): (c: Option<CastKind>)
    ensures c == Some(HashedCast) <==> key == "password"
    ensures c == Some(DateCast) <==> key == "birth"
    ensures c.Some? <==> key in {"email_verified_at", "password", "birth"}
  {
    if key == "email_verified_at" then Some(DateTimeCast)
    else if key == "password" then Some(HashedCast)
    else if key == "birth" then Some(DateCast)
    else None
  }

  /** PHP's string conversion of an integer: its decimal digits, after a
      minus sign when it is negative. */
  function DecimalString(i: int): string
  {
    if i < 0 then "-" + Digits(-i) else Digits(i)
  }

  function Digits(n: nat): string
  {
    if n < 10 then ["0123456789"[n]] else Digits(n / 10) + ["0123456789"[n % 10]]
  }

  /** The text the hasher receives for a value that is not yet a digest. */
  function PlainText(v: Value): string
    requires v.Text? || v.Int?
  {
    if v.Text? then v.s else DecimalString(v.i)
  }

  /** The value an attribute takes when it is set: an attribute cast as
      `hashed` turns any value that is neither null nor already a digest into
      the digest of its text, and keeps null and digests as they are. The
      date casts normalise the stored format of their value, which the model
      does not represent (dates are opaque strings); every other attribute
      is stored as given. */
  function CastForStorage(key: string, v: Value, hashMake: string -> Digest): (r: Value)
    ensures CastOf(key) == Some(HashedCast) && (v.Text? || v.Int?) ==> r == Hashed(hashMake(PlainText(v)))
    ensures CastOf(key) != Some(HashedCast) || v.Null? || v.Hashed? ==> r == v
    ensures CastOf(key) == Some(HashedCast) ==> r.Null? || r.Hashed?
  {
    if CastOf(key) == Some(HashedCast) && (v.Text? || v.Int?) then Hashed(hashMake(PlainText(v))) else v
  }

  /** Mass assignment (`fill`): the fillable keys of `input` are set, cast
      for storage; every other key of `input` is dropped. Roles are not
      attributes and are never touched. */
  function Fill(u: UserRecord, input: Attributes, hashMake: string -> Digest): (r: UserRecord)
    ensures r.roles == u.roles
    ensures forall k :: k in r.attrs <==> k in u.attrs || (k in input && k in FillableKeys)
    ensures forall k :: k in input && k in FillableKeys ==>
      r.attrs[k] == CastForStorage(k, input[k], hashMake)
    ensures forall k :: k in u.attrs && !(k in input && k in FillableKeys) ==>
      r.attrs[k] == u.attrs[k]
  {
    var accepted := map k | k in input && k in FillableKeys :: CastForStorage(k, input[k], hashMake);
    u.(attrs := u.attrs + accepted)
  }

  /** Serialization (`toArray`): every attribute except the hidden ones. */
  function ToArray(u: UserRecord): (r: Attributes)
    ensures "password" !in r && "remember_token" !in r
    ensures forall k :: k in r <==> k in u.attrs && k !in HiddenKeys
    ensures forall k :: k in r ==> r[k] == u.attrs[k]
  {
    map k | k in u.attrs && k !in HiddenKeys :: u.attrs[k]
  }

  /** `getJWTIdentifier`: the model's primary key. */
  function JWTIdentifier(u: UserRecord): Value
  {
    Attr(u, "id")
  }

  /** `getJWTCustomClaims`: no claims beyond the standard ones. */
  function JWTCustomClaims(u: UserRecord): (claims: Attributes)
    ensures |claims| == 0
  {
    map[]
  }

  /** When every key of the input is fillable and the password, if any, is
      null or already a digest, mass assignment stores the input as it is. */
  lemma FillAccepted(u: UserRecord, input: Attributes, hashMake: string -> Digest)
    requires input.Keys <= FillableKeys
    requires "password" in input ==> input["password"].Null? || input["password"].Hashed?
    ensures Fill(u, input, hashMake) == u.(attrs := u.attrs + input)
  {
    var r := Fill(u, input, hashMake);
    assert r.attrs == u.attrs + input;
  }

  /** Mass assignment can never set the plain `role` attribute, the remember
      token or the primary key, whatever the input holds. */
  lemma MassAssignmentDropsGuardedKeys(u: UserRecord, input: Attributes, hashMake: string -> Digest)
    ensures forall k :: k !in FillableKeys ==> Attr(Fill(u, input, hashMake), k) == Attr(u, k)
    ensures "role" !in FillableKeys && "remember_token" !in FillableKeys && "id" !in FillableKeys
  {
  }

  /** A password given to mass assignment as text or as a number is stored
      only as the digest of its text, never as the value given. */
  lemma PasswordStoredHashed(u: UserRecord, input: Attributes, hashMake: string -> Digest)
    requires "password" in input && (input["password"].Text? || input["password"].Int?)
    ensures Attr(Fill(u, input, hashMake), "password") == Hashed(hashMake(PlainText(input["password"])))
    ensures Attr(Fill(u, input, hashMake), "password") != input["password"]
  {
  }
}

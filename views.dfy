/**
 * The request handlers: login, the role endpoints, and the image endpoints
 * with their authorisation gate. Each handler takes the store it reads and
 * changes; what it answers is an `Outcome`: a response with a status and a
 * body, or an exception the handler raises (the framework's
 * `AuthenticationFailed`, or one it does not handle at all).
 */
module Views {
  import opened Base
  import opened Models
  import opened Utils
  import opened Serializers

  /** The body of a response. */
  datatype Body =
    | NoBody
    | Message(text: string)
    | Record(fields: map<string, string>)
    | FieldError(field: string, message: string)
    | RoleRows(roles: set<string>)
    | ImageRow(id: nat, image: Image)
    | ImageRows(images: map<nat, Image>)

  /** An exception leaving a handler: `AuthenticationFailed`, or one the
      handler does not catch (a missing request key, a missing row, an
      attribute read on `None`, an unbound local variable). */
  datatype Exception = AuthFailure(failure: AuthenticationFailed) | Uncaught

  datatype Outcome = Respond(status: int, body: Body) | Raise(exception: Exception)

  /** The result of the image endpoints' gate: the caller's user row, or
      the outcome the handler ends with. */
  datatype Gate = Permit(user: User) | Deny(outcome: Outcome)

  /** The image-mutation gate: the caller must be authenticated, and the
      user row of the resolved username must have the role `beta_player`.
      A caller whose row is gone, or has no role, makes the handler raise;
      any other role is answered 401. */
  function Authorize(users: map<string, User>, access: Result<ClaimValue, AuthenticationFailed>, action: string)
    : (g: Gate)
    ensures g.Permit? <==>
      && access.Ok? && access.value.Text? && access.value.text in users
      && users[access.value.text].role == Some(BetaPlayer)
    ensures g.Permit? ==> g.user == users[access.value.text]
    ensures access.Err? ==> g == Deny(Raise(AuthFailure(access.error)))
    ensures access.Ok? && !(access.value.Text? && access.value.text in users) ==> g == Deny(Raise(Uncaught))
    ensures access.Ok? && access.value.Text? && access.value.text in users ==>
      var role := users[access.value.text].role;
      && (role.None? ==> g == Deny(Raise(Uncaught)))
      && (role.Some? && role.value != BetaPlayer ==>
            g == Deny(Respond(401, Message("User not allowed to " + action + " the image"))))
  {
    match access
    case Err(failure) => Deny(Raise(AuthFailure(failure)))
    case Ok(claim) =>
      if !claim.Text? || claim.text !in users then Deny(Raise(Uncaught))
      else
        var user := users[claim.text];
        if user.role.None? then Deny(Raise(Uncaught))
        else if user.role.value != BetaPlayer then
          Deny(Respond(401, Message("User not allowed to " + action + " the image")))
        else Permit(user)
  }

  /** Deleting a role leaves its former holders unable to pass the gate. */
  lemma DeletedRoleLocksOut(users: map<string, User>, role: string, name: string, action: string)
    requires name in users && users[name].role == Some(role)
    ensures Authorize(ClearRole(users, role), Ok(Text(name)), action) == Deny(Raise(Uncaught))
  {
  }

  /** A token outliving its user no longer passes the gate. */
  lemma DeletedUserLocksOut(users: map<string, User>, name: string, action: string)
    ensures Authorize(users - {name}, Ok(Text(name)), action) == Deny(Raise(Uncaught))
  {
  }

  /** The login decision: a missing `username` or `password` field raises;
      then the user must exist, then the password must match, and only then
      is a token issued and returned as the whole body. */
  function Login(users: map<string, User>, data: Fields, matches: (string, string) -> bool,
                 sign: Claims -> string, now: int): (r: Outcome)
    ensures "username" !in data || "password" !in data ==> r == Raise(Uncaught)
    ensures "username" in data && "password" in data && data["username"] !in users ==>
      r == Raise(AuthFailure(AuthenticationFailed("User not found!")))
    ensures "username" in data && "password" in data && data["username"] in users
            && !matches(users[data["username"]].password, data["password"]) ==>
      r == Raise(AuthFailure(AuthenticationFailed("Incorrect password!")))
    ensures r.Respond? <==>
      && "username" in data && "password" in data && data["username"] in users
      && matches(users[data["username"]].password, data["password"])
    ensures r.Respond? ==>
      r == Respond(200, Record(map["jwt" := EncodeToken(sign, users[data["username"]], now)]))
  {
    if "username" !in data || "password" !in data then Raise(Uncaught)
    else if data["username"] !in users then Raise(AuthFailure(AuthenticationFailed("User not found!")))
    else
      var user := users[data["username"]];
      if !matches(user.password, data["password"]) then
        Raise(AuthFailure(AuthenticationFailed("Incorrect password!")))
      else
        Respond(200, Record(map["jwt" := EncodeToken(sign, user, now)]))
  }

  /** The credentials of a login request. */
  function LoginData(username: string, password: string): Fields
  {
    map["username" := username, "password" := password]
  }

  /** End to end: a `beta_player` who logs in gets a token that, sent back
      as `Bearer <token>` up to its expiry second, passes the image gate. */
  lemma LoginThenPermitted(users: map<string, User>, name: string, password: string,
                           matches: (string, string) -> bool, sign: Claims -> string,
                           verify: (string, int) -> Verdict, issued: int, now: int, action: string)
    requires SignerSound(sign, verify) && CompactTokens(sign)
    requires name in users && users[name].username == name && users[name].role == Some(BetaPlayer)
    requires matches(users[name].password, password)
    requires issued <= now <= issued + TokenLifetime
    ensures var r := Login(users, LoginData(name, password), matches, sign, issued);
      && r.Respond? && r.body.Record? && "jwt" in r.body.fields
      && Authorize(users, CheckAccess(verify, map["Authorization" := BearerPrefix + r.body.fields["jwt"]], now), action)
         == Permit(users[name])
  {
    IssuedTokenGrantsAccess(sign, verify, users[name], issued, now);
  }

  /** End to end: a user of another role who logs in gets a token that
      authenticates, but the image gate answers 401. */
  lemma LoginThenRefused(users: map<string, User>, name: string, password: string,
                         matches: (string, string) -> bool, sign: Claims -> string,
                         verify: (string, int) -> Verdict, issued: int, now: int, action: string)
    requires SignerSound(sign, verify) && CompactTokens(sign)
    requires name in users && users[name].username == name
    requires users[name].role.Some? && users[name].role.value != BetaPlayer
    requires matches(users[name].password, password)
    requires issued <= now <= issued + TokenLifetime
    ensures var r := Login(users, LoginData(name, password), matches, sign, issued);
      && r.Respond? && r.body.Record? && "jwt" in r.body.fields
      && Authorize(users, CheckAccess(verify, map["Authorization" := BearerPrefix + r.body.fields["jwt"]], now), action)
         == Deny(Respond(401, Message("User not allowed to " + action + " the image")))
  {
    IssuedTokenGrantsAccess(sign, verify, users[name], issued, now);
  }

  /** An image's foreign key refers to an existing user, or is null. */
  predicate UploaderExists(users: map<string, User>, image: Image)
  {
    image.uploadedBy.None? || image.uploadedBy.value in users
  }

  /** The 400 answer for an image whose uploader does not exist. */
  function UploaderError(image: Image): Outcome
    requires image.uploadedBy.Some?
  {
    Respond(400, FieldError("uploaded_by", "Invalid pk \"" + image.uploadedBy.value + "\" - object does not exist."))
  }

  const DeletedBody: Body := Record(map["data" := "deleted successfully"])

  /** GET /roles/: every role row. */
  method RoleList(store: Store) returns (r: Outcome)
    ensures r == Respond(200, RoleRows(store.roles))
  {
    r := Respond(200, RoleRows(store.roles));
  }

  /** POST /roles/: a role is stored only when the payload validates (so
      only an allowed role can be created), answered 201; otherwise 400 and
      nothing changes. */
  method RoleCreate(store: Store, data: Fields) returns (r: Outcome)
    requires store.Valid()
    modifies store
    ensures store.Valid()
    ensures store.users == old(store.users) && store.images == old(store.images)
    ensures store.nextImageId == old(store.nextImageId)
    ensures var v := ValidateRolePayload(data, old(store.roles), None);
      && (v.Err? ==> r == Respond(400, FieldError("role", v.error.message)) && store.roles == old(store.roles))
      && (v.Ok? ==> r == Respond(201, Record(map["role" := v.value])) && store.roles == old(store.roles) + {v.value})
    ensures forall name :: name in store.roles && name !in old(store.roles) ==> name in AllowedRoles
  {
    var v := ValidateRolePayload(data, store.roles, None);
    if v.Err? {
      return Respond(400, FieldError("role", v.error.message));
    }
    store.SaveRole(v.value);
    r := Respond(201, Record(map["role" := v.value]));
  }

  /** GET /roles/<id>/: the role row, or 404. */
  method RoleRetrieve(store: Store, id: string) returns (r: Outcome)
    ensures id in store.roles ==> r == Respond(200, Record(map["role" := id]))
    ensures id !in store.roles ==> r == Respond(404, NoBody)
  {
    if id !in store.roles {
      return Respond(404, NoBody);
    }
    r := Respond(200, Record(map["role" := id]));
  }

  /** PUT /roles/<id>/: 404 for an unknown role; otherwise the payload is
      validated as for creation (uniqueness ignoring this row) and saved.
      Saving a row under a changed primary key inserts a new row and keeps
      the old one. */
  method RoleUpdate(store: Store, id: string, data: Fields) returns (r: Outcome)
    requires store.Valid()
    modifies store
    ensures store.Valid()
    ensures store.users == old(store.users) && store.images == old(store.images)
    ensures store.nextImageId == old(store.nextImageId)
    ensures id !in old(store.roles) ==> r == Respond(404, NoBody) && store.roles == old(store.roles)
    ensures id in old(store.roles) ==>
      var v := ValidateRolePayload(data, old(store.roles), Some(id));
      && (v.Err? ==> r == Respond(400, FieldError("role", v.error.message)) && store.roles == old(store.roles))
      && (v.Ok? ==> r == Respond(200, Record(map["role" := v.value])) && store.roles == old(store.roles) + {v.value})
    ensures forall name :: name in store.roles && name !in old(store.roles) ==> name in AllowedRoles
  {
    if id !in store.roles {
      return Respond(404, NoBody);
    }
    var v := ValidateRolePayload(data, store.roles, Some(id));
    if v.Err? {
      return Respond(400, FieldError("role", v.error.message));
    }
    store.SaveRole(v.value);
    r := Respond(200, Record(map["role" := v.value]));
  }

  /** DELETE /roles/<id>/: 404 for an unknown role; otherwise the row goes
      and its users are left with no role. */
  method RoleDestroy(store: Store, id: string) returns (r: Outcome)
    requires store.Valid()
    modifies store
    ensures store.Valid()
    ensures store.images == old(store.images) && store.nextImageId == old(store.nextImageId)
    ensures id !in old(store.roles) ==>
      r == Respond(404, NoBody) && store.roles == old(store.roles) && store.users == old(store.users)
    ensures id in old(store.roles) ==>
      && r == Respond(200, DeletedBody)
      && store.roles == old(store.roles) - {id}
      && store.users == ClearRole(old(store.users), id)
  {
    if id !in store.roles {
      return Respond(404, NoBody);
    }
    store.DeleteRole(id);
    r := Respond(200, DeletedBody);
  }

  /** GET /images/: every image, to any authenticated caller whatever
      their role or user row. */
  method ImageList(store: Store, verify: (string, int) -> Verdict, headers: map<string, string>, now: int)
    returns (r: Outcome)
    ensures CheckAccess(verify, headers, now).Err? ==>
      r == Raise(AuthFailure(AuthenticationFailed(DefaultDetail)))
    ensures CheckAccess(verify, headers, now).Ok? ==> r == Respond(200, ImageRows(store.images))
  {
    var access := CheckAccess(verify, headers, now);
    if access.Err? {
      return Raise(AuthFailure(access.error));
    }
    r := Respond(200, ImageRows(store.images));
  }

  /** POST /images/: through the gate, then a valid image is stored under
      the next id and answered 201; any refusal leaves the store as it was. */
  method ImageCreate(store: Store, verify: (string, int) -> Verdict, headers: map<string, string>,
                     now: int, image: Image) returns (r: Outcome)
    requires store.Valid()
    modifies store
    ensures store.Valid()
    ensures store.roles == old(store.roles) && store.users == old(store.users)
    ensures var g := Authorize(old(store.users), CheckAccess(verify, headers, now), "add");
      && (g.Deny? ==> r == g.outcome && unchanged(store))
      && (g.Permit? && !UploaderExists(old(store.users), image) ==> r == UploaderError(image) && unchanged(store))
      && (g.Permit? && UploaderExists(old(store.users), image) ==>
            && r == Respond(201, Message("Image uploaded successfully"))
            && store.images == old(store.images)[old(store.nextImageId) := image]
            && store.nextImageId == old(store.nextImageId) + 1)
  {
    var g := Authorize(store.users, CheckAccess(verify, headers, now), "add");
    if g.Deny? {
      return g.outcome;
    }
    if !UploaderExists(store.users, image) {
      return UploaderError(image);
    }
    var _ := store.InsertImage(image);
    r := Respond(201, Message("Image uploaded successfully"));
  }

  /** GET /images/<id>/: the image, to any authenticated caller; for an
      unknown id the handler raises rather than answering 404. */
  method ImageRetrieve(store: Store, verify: (string, int) -> Verdict, headers: map<string, string>,
                       now: int, id: nat) returns (r: Outcome)
    ensures CheckAccess(verify, headers, now).Err? ==>
      r == Raise(AuthFailure(AuthenticationFailed(DefaultDetail)))
    ensures CheckAccess(verify, headers, now).Ok? && id in store.images ==>
      r == Respond(200, ImageRow(id, store.images[id]))
    ensures CheckAccess(verify, headers, now).Ok? && id !in store.images ==> r == Raise(Uncaught)
  {
    var access := CheckAccess(verify, headers, now);
    if access.Err? {
      return Raise(AuthFailure(access.error));
    }
    if id !in store.images {
      return Raise(Uncaught);
    }
    r := Respond(200, ImageRow(id, store.images[id]));
  }

  /** PUT /images/<id>/: the gate comes first, so a caller who is not a
      `beta_player` is refused even for an unknown id; then 404 for an
      unknown id, 400 for an invalid image, else the image is replaced. */
  method ImageUpdate(store: Store, verify: (string, int) -> Verdict, headers: map<string, string>,
                     now: int, id: nat, image: Image) returns (r: Outcome)
    requires store.Valid()
    modifies store
    ensures store.Valid()
    ensures store.roles == old(store.roles) && store.users == old(store.users)
    ensures store.nextImageId == old(store.nextImageId)
    ensures var g := Authorize(old(store.users), CheckAccess(verify, headers, now), "update");
      && (g.Deny? ==> r == g.outcome && unchanged(store))
      && (g.Permit? && id !in old(store.images) ==>
            r == Respond(404, Message("Image does not exist")) && unchanged(store))
      && (g.Permit? && id in old(store.images) && !UploaderExists(old(store.users), image) ==>
            r == UploaderError(image) && unchanged(store))
      && (g.Permit? && id in old(store.images) && UploaderExists(old(store.users), image) ==>
            r == Respond(200, ImageRow(id, image)) && store.images == old(store.images)[id := image])
  {
    var g := Authorize(store.users, CheckAccess(verify, headers, now), "update");
    if g.Deny? {
      return g.outcome;
    }
    if id !in store.images {
      return Respond(404, Message("Image does not exist"));
    }
    if !UploaderExists(store.users, image) {
      return UploaderError(image);
    }
    store.UpdateImage(id, image);
    r := Respond(200, ImageRow(id, image));
  }

  /** DELETE /images/<id>/: the gate first, then 404 for an unknown id;
      otherwise only that image goes. */
  method ImageDestroy(store: Store, verify: (string, int) -> Verdict, headers: map<string, string>,
                      now: int, id: nat) returns (r: Outcome)
    requires store.Valid()
    modifies store
    ensures store.Valid()
    ensures store.roles == old(store.roles) && store.users == old(store.users)
    ensures store.nextImageId == old(store.nextImageId)
    ensures var g := Authorize(old(store.users), CheckAccess(verify, headers, now), "delete");
      && (g.Deny? ==> r == g.outcome && unchanged(store))
      && (g.Permit? && id !in old(store.images) ==>
            r == Respond(404, Message("Image does not exist")) && unchanged(store))
      && (g.Permit? && id in old(store.images) ==>
            r == Respond(200, DeletedBody) && store.images == old(store.images) - {id})
  {
    var g := Authorize(store.users, CheckAccess(verify, headers, now), "delete");
    if g.Deny? {
      return g.outcome;
    }
    if id !in store.images {
      return Respond(404, Message("Image does not exist"));
    }
    store.DeleteImage(id);
    r := Respond(200, DeletedBody);
  }
}

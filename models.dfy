/**
 * The three tables of the application (roles, users, images) and the
 * row-level operations the views and serializers perform on them,
 * including the `on_delete=SET_NULL` rule of the two nullable foreign keys.
 */
module Models {
  import opened Base

  /** A user row: `role` and `subscriptionPlan` are nullable foreign keys,
      given by the referenced row's primary key; `password` is the stored
      (hashed) password, empty when none was ever set. */
  datatype User = User(username: string, role: Option<string>, password: string,
                       subscriptionPlan: Option<string>)

  /** An image row; `uploadedBy` is a nullable foreign key to a user,
      given by that user's username. */
  datatype Image = Image(uploadedBy: Option<string>, imageFile: string, description: string)

  /** The users map after deleting the role `role`: every user that
      referenced it now has no role; nothing else changes. */
  function ClearRole(users: map<string, User>, role: string): (r: map<string, User>)
    ensures r.Keys == users.Keys
    ensures forall u :: u in r ==> r[u].role != Some(role)
    ensures forall u :: u in r && users[u].role != Some(role) ==> r[u] == users[u]
    ensures forall u :: u in r && users[u].role == Some(role) ==> r[u] == users[u].(role := None)
  {
    map u | u in users :: if users[u].role == Some(role) then users[u].(role := None) else users[u]
  }

  /** The images map after deleting the user `username`: every image that
      user uploaded now has no uploader; nothing else changes. */
  function ClearUploader(images: map<nat, Image>, username: string): (r: map<nat, Image>)
    ensures r.Keys == images.Keys
    ensures forall i :: i in r ==> r[i].uploadedBy != Some(username)
    ensures forall i :: i in r && images[i].uploadedBy != Some(username) ==> r[i] == images[i]
    ensures forall i :: i in r && images[i].uploadedBy == Some(username) ==> r[i] == images[i].(uploadedBy := None)
  {
    map i | i in images :: if images[i].uploadedBy == Some(username) then images[i].(uploadedBy := None) else images[i]
  }

  /** The persistent store: a table per model, keyed by primary key (users
      by their unique username), and the next auto-increment image id. */
  class Store {
    var roles: set<string>
    var users: map<string, User>
    var images: map<nat, Image>
    var nextImageId: nat

    /** Referential integrity: each user is stored under its own username,
        every non-null foreign key refers to an existing row, and every
        image id was handed out by the auto-increment counter. */
    ghost predicate Valid()
      reads this
    {
      && (forall u :: u in users ==> users[u].username == u)
      && (forall u :: u in users && users[u].role.Some? ==> users[u].role.value in roles)
      && (forall i :: i in images && images[i].uploadedBy.Some? ==> images[i].uploadedBy.value in users)
      && (forall i :: i in images ==> i < nextImageId)
    }

    constructor ()
      ensures Valid()
      ensures roles == {} && users == map[] && images == map[] && nextImageId == 1
    {
      roles := {};
      users := map[];
      images := map[];
      nextImageId := 1;
    }

    /** `Role(role=name).save()`: the row is inserted, or left as it is
        when a row with that primary key already exists. */
    method SaveRole(name: string)
      requires Valid()
      modifies this
      ensures Valid()
      ensures roles == old(roles) + {name}
      ensures users == old(users) && images == old(images) && nextImageId == old(nextImageId)
    {
      roles := roles + {name};
    }

    /** `role.delete()`: the row goes, and `on_delete=SET_NULL` clears the
        role of every user that referenced it. */
    method DeleteRole(name: string)
      requires Valid()
      modifies this
      ensures Valid()
      ensures roles == old(roles) - {name}
      ensures users == ClearRole(old(users), name)
      ensures images == old(images) && nextImageId == old(nextImageId)
    {
      roles := roles - {name};
      users := ClearRole(users, name);
    }

    /** `user.save()` for a new user whose role, if any, exists. */
    method InsertUser(user: User)
      requires Valid()
      requires user.username !in users
      requires user.role.Some? ==> user.role.value in roles
      modifies this
      ensures Valid()
      ensures users == old(users)[user.username := user]
      ensures roles == old(roles) && images == old(images) && nextImageId == old(nextImageId)
    {
      users := users[user.username := user];
    }

    /** `user.delete()`: the row goes, and `on_delete=SET_NULL` clears the
        uploader of every image that user uploaded. */
    method DeleteUser(username: string)
      requires Valid()
      modifies this
      ensures Valid()
      ensures users == old(users) - {username}
      ensures images == ClearUploader(old(images), username)
      ensures roles == old(roles) && nextImageId == old(nextImageId)
    {
      users := users - {username};
      images := ClearUploader(images, username);
    }

    /** `image.save()` for a new image: it gets the next auto-increment id. */
    method InsertImage(image: Image) returns (id: nat)
      requires Valid()
      requires image.uploadedBy.Some? ==> image.uploadedBy.value in users
      modifies this
      ensures Valid()
      ensures id == old(nextImageId) && id !in old(images)
      ensures images == old(images)[id := image] && nextImageId == old(nextImageId) + 1
      ensures roles == old(roles) && users == old(users)
    {
      id := nextImageId;
      images := images[id := image];
      nextImageId := nextImageId + 1;
    }

    /** `image.save()` for an existing image: its fields are overwritten. */
    method UpdateImage(id: nat, image: Image)
      requires Valid()
      requires id in images
      requires image.uploadedBy.Some? ==> image.uploadedBy.value in users
      modifies this
      ensures Valid()
      ensures images == old(images)[id := image]
      ensures roles == old(roles) && users == old(users) && nextImageId == old(nextImageId)
    {
      images := images[id := image];
    }

    /** `image.delete()`: only that row goes. */
    method DeleteImage(id: nat)
      requires Valid()
      modifies this
      ensures Valid()
      ensures images == old(images) - {id}
      ensures roles == old(roles) && users == old(users) && nextImageId == old(nextImageId)
    {
      images := images - {id};
    }
  }
}

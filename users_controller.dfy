/**
 * The users controller (packages/backend/src/controllers/UsersController.ts): five request
 * handlers over the users table. The table and the store's next generated key are the fields of
 * one object; TypeORM's `find`, `findOne`, `save`, `delete` and `merge` become reads and updates
 * of the map.
 */
module Controllers {
  import opened Wrappers
  import opened Entities
  import opened Dtos
  import opened Locations

  /**
   * What a handler answers: `200 OK`, `201 Created` with its `Location` header, `404 Not Found`,
   * `409 Conflict`, or no answer at all because a rejected `save` escaped the handler.
   */
  datatype Status = Ok | Created(location: string) | NotFound | Conflict | Unhandled

  /** Password the create handler stores, whatever the body holds. */
  const CreatePassword: string := "super-secret"
  /** Password the update handler stores, whatever the body holds. */
  const UpdatePassword: string := "updated-password"

  class UsersController {
    /** The users table, keyed by primary key. */
    var users: Table
    /** The key the store generates for the next inserted row. */
    var nextId: nat

    ghost predicate Valid()
      reads this
    {
      TableInvariant(users, nextId)
    }

    /** An empty table whose first generated key is 1. */
    constructor ()
      ensures Valid()
      ensures users == map[] && nextId == 1
    {
      users := map[];
      nextId := 1;
    }

    /** `GET /users`: every stored record, projected with `UserDto.fromEntity`. */
    method GetAllUsers() returns (status: Status, views: seq<UserDto>)
      requires Valid()
      ensures status == Ok
      ensures IsListing(users, views)
    {
      views := ProjectRows(users);
      status := Ok;
    }

    /** `GET /users/:id`: the view of the record with that key, or Not Found. */
    method GetUserById(id: nat) returns (status: Status, view: Option<UserDto>)
      requires Valid()
      ensures id in users ==> status == Ok && view == Some(New(users[id]))
      ensures id !in users ==> status == NotFound && view == None
    {
      if id in users {
        status, view := Ok, Some(New(users[id]));
      } else {
        status, view := NotFound, None;
      }
    }

    /**
     * `POST /users`: builds a record from the body with the server's password and saves it.
     * The store generates the key; a save that fails for any reason (a column the body left out,
     * which the table does not allow to be empty, the unique index on `username`, or
     * `storeFault`, any other failure of the store) answers Conflict and writes nothing.
     */
    method CreateUser(body: UserPayload, storeFault: bool) returns (status: Status)
      requires Valid()
      requires body.id == None
      modifies this
      ensures Valid()
      ensures storeFault || !HasColumns(body) || UsernameTaken(old(users), body.username.value) ==>
        status == Conflict && users == old(users) && nextId == old(nextId)
      ensures !storeFault && HasColumns(body) && !UsernameTaken(old(users), body.username.value) ==>
        && status == Created(Location(old(nextId)))
        && old(nextId) !in old(users)
        && users == old(users)[old(nextId) := UserEntity(old(nextId), body.name.value, body.username.value, body.email.value, CreatePassword)]
        && nextId == old(nextId) + 1
    {
      if storeFault || !HasColumns(body) || UsernameTaken(users, body.username.value) {
        status := Conflict;
      } else {
        var entity := UserEntity(nextId, body.name.value, body.username.value, body.email.value, CreatePassword);
        InsertKeepsInvariant(users, nextId, entity);
        users := users[nextId := entity];
        nextId := nextId + 1;
        status := Created(Location(entity.id));
      }
    }

    /** `DELETE /users/:id`: removes the record with that key, or answers Not Found. */
    method DeleteUserById(id: nat) returns (status: Status)
      requires Valid()
      modifies this
      ensures Valid()
      ensures nextId == old(nextId)
      ensures id in old(users) ==> status == Ok && users == old(users) - {id}
      ensures id !in old(users) ==> status == NotFound && users == old(users)
    {
      if id in users {
        RemoveKeepsInvariant(users, nextId, id);
        users := users - {id};
        status := Ok;
      } else {
        status := NotFound;
      }
    }

    /**
     * `PUT /users/:id`: Not Found when no record has that key; Conflict, before anything is
     * merged or saved, when the body's id is missing or names another record; otherwise the
     * columns the body carries and the server's password are merged into the record, the others
     * kept, and the record is saved. Nothing catches a failing save (a username another record
     * holds, or `storeFault`): the handler then answers nothing and the table keeps its old rows.
     */
    method UpdateUserById(id: nat, body: UserPayload, storeFault: bool) returns (status: Status)
      requires Valid()
      modifies this
      ensures Valid()
      ensures nextId == old(nextId)
      ensures id !in old(users) ==> status == NotFound && users == old(users)
      ensures id in old(users) && body.id != Some(id) ==> status == Conflict && users == old(users)
      ensures id in old(users) && body.id == Some(id) ==>
        var was := old(users)[id];
        var merged := UserEntity(id, body.name.GetOr(was.name), body.username.GetOr(was.username), body.email.GetOr(was.email), UpdatePassword);
        if storeFault || UsernameTakenByOther(old(users), merged.username, id)
        then status == Unhandled && users == old(users)
        else status == Ok && users == old(users)[id := merged]
    {
      if id !in users {
        status := NotFound;
      } else {
        var entity := users[id];
        if body.id != Some(entity.id) {
          status := Conflict;
        } else {
          entity := Merge(entity, body.id, body.name, body.username, body.email, UpdatePassword);
          if storeFault || UsernameTakenByOther(users, entity.username, entity.id) {
            status := Unhandled;
          } else {
            ReplaceKeepsInvariant(users, nextId, entity);
            users := users[entity.id := entity];
            status := Ok;
          }
        }
      }
    }
  }

  /**
   * `UserEntity.find()` followed by `.map(UserDto.fromEntity)`: walks the stored rows in the
   * store's order, which nothing fixes, and projects each one.
   */
  method ProjectRows(rows: Table) returns (views: seq<UserDto>)
    requires KeysAreIds(rows)
    ensures IsListing(rows, views)
  {
    var done: set<nat> := {};
    views := [];
    while done != rows.Keys
      invariant done <= rows.Keys
      invariant ListsKeys(rows, done, views)
      decreases rows.Keys - done
    {
      assert rows.Keys - done != {};
      var k :| k in rows.Keys - done;
      ListsOneMore(rows, done, views, k);
      views := views + [FromEntity(rows[k])];
      done := done + {k};
    }
  }

  /**
   * A session against an empty table: create Ada, try to create a user without an email, read
   * Ada back, try an update whose body names another id, update only her name, read her again,
   * delete her, and read her once more.
   */
  method AdaSession() returns (statuses: seq<Status>, first: Option<UserDto>, renamed: Option<UserDto>)
    ensures statuses == [Created("/users/1"), Conflict, Ok, Conflict, Ok, Ok, Ok, NotFound]
    ensures first == Some(UserDto(1, "Ada", "ada", "ada@x.io"))
    ensures renamed == Some(UserDto(1, "Ada L.", "ada", "ada@x.io"))
  {
    var c := new UsersController();
    var s1 := c.CreateUser(UserPayload(None, Some("Ada"), Some("ada"), Some("ada@x.io"), Some("hunter2")), false);
    assert Location(1) == "/users/1";
    var s2 := c.CreateUser(UserPayload(None, Some("Bob"), Some("bob"), None, None), false);
    var s3, v1 := c.GetUserById(1);
    var s4 := c.UpdateUserById(1, UserPayload(Some(2), Some("Eve"), Some("eve"), Some("eve@x.io"), None), false);
    var s5 := c.UpdateUserById(1, UserPayload(Some(1), Some("Ada L."), None, None, None), false);
    var s6, v2 := c.GetUserById(1);
    var s7 := c.DeleteUserById(1);
    var s8, v3 := c.GetUserById(1);
    statuses := [s1, s2, s3, s4, s5, s6, s7, s8];
    first, renamed := v1, v2;
  }
}

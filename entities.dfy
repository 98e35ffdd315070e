/**
 * The `UserEntity` record (packages/backend/src/models/entities/UserEntity.ts) and the table of
 * stored records the controller works on. The store's generated primary key and its unique index
 * on `username` become an invariant of the table.
 */
module Entities {
  import opened Wrappers

  /** One stored row. `id` is the generated primary key; every other column is a plain string. */
  datatype UserEntity = UserEntity(id: nat, name: string, username: string, email: string, password: string)

  /** The users table, keyed by primary key. */
  type Table = map<nat, UserEntity>

  /** Each row is stored under its own primary key. */
  ghost predicate KeysAreIds(t: Table) {
    forall k :: k in t ==> t[k].id == k
  }

  /** The unique index on `username`: two rows with the same username are the same row. */
  ghost predicate UsernamesUnique(t: Table) {
    forall k1, k2 :: k1 in t && k2 in t && t[k1].username == t[k2].username ==> k1 == k2
  }

  /** Every id handed out so far is below the store's next generated key. */
  ghost predicate IdsBelow(t: Table, nextId: nat) {
    forall k :: k in t ==> k < nextId
  }

  ghost predicate TableInvariant(t: Table, nextId: nat) {
    KeysAreIds(t) && UsernamesUnique(t) && IdsBelow(t, nextId)
  }

  /** Some row already holds `username`: inserting another row with it violates the unique index. */
  predicate UsernameTaken(t: Table, username: string) {
    exists k :: k in t && t[k].username == username
  }

  /** A row other than `id` holds `username`: saving `id` with it violates the unique index. */
  predicate UsernameTakenByOther(t: Table, username: string, id: nat) {
    exists k :: k in t && k != id && t[k].username == username
  }

  /** The primary keys of the rows that hold `username`. */
  ghost function Holders(t: Table, username: string): set<nat> {
    set k | k in t && t[k].username == username
  }

  /** Distinct stored rows have distinct ids. */
  lemma DistinctRowsDistinctIds(t: Table, k1: nat, k2: nat)
    requires KeysAreIds(t)
    requires k1 in t && k2 in t && k1 != k2
    ensures t[k1].id != t[k2].id
  {
  }

  /**
   * Under the unique index a username is held by exactly one row when it is taken and by none
   * when it is free.
   */
  lemma {:induction false} HoldersOfUsername(t: Table, username: string)
    requires UsernamesUnique(t)
    ensures |Holders(t, username)| == if UsernameTaken(t, username) then 1 else 0
  {
    if UsernameTaken(t, username) {
      var k :| k in t && t[k].username == username;
      assert Holders(t, username) == {k};
    } else {
      assert Holders(t, username) == {};
    }
  }

  /** Inserting a row with the next generated key and a free username keeps the invariant and grows the table by one. */
  lemma InsertKeepsInvariant(t: Table, nextId: nat, e: UserEntity)
    requires TableInvariant(t, nextId)
    requires e.id == nextId && !UsernameTaken(t, e.username)
    ensures nextId !in t
    ensures TableInvariant(t[nextId := e], nextId + 1)
    ensures |t[nextId := e]| == |t| + 1
  {
  }

  /** Replacing a stored row by one with the same id and a username no other row holds keeps the invariant. */
  lemma ReplaceKeepsInvariant(t: Table, nextId: nat, e: UserEntity)
    requires TableInvariant(t, nextId)
    requires e.id in t && !UsernameTakenByOther(t, e.username, e.id)
    ensures TableInvariant(t[e.id := e], nextId)
    ensures t[e.id := e].Keys == t.Keys
  {
  }

  /** Removing a row keeps the invariant. */
  lemma RemoveKeepsInvariant(t: Table, nextId: nat, id: nat)
    requires TableInvariant(t, nextId)
    ensures TableInvariant(t - {id}, nextId)
  {
  }

  /**
   * `UserEntity.merge(entity, patch)`: copies every property the patch carries onto the entity,
   * `id` included when the patch has one, and leaves the others as they were. The password is
   * always part of the patch. The entity keeps its primary key exactly when the patch carries
   * no id or the entity's own; a patch with another id rewrites the key, which is why the update
   * handler checks the id before it merges.
   */
  function Merge(e: UserEntity, id: Option<nat>, name: Option<string>, username: Option<string>, email: Option<string>, password: string): (r: UserEntity)
    ensures r.id == e.id <==> id.None? || id.value == e.id
  {
    UserEntity(id.GetOr(e.id), name.GetOr(e.name), username.GetOr(e.username), email.GetOr(e.email), password)
  }

  /** Merging the same patch twice is merging it once. */
  lemma MergeIdempotent(e: UserEntity, id: Option<nat>, name: Option<string>, username: Option<string>, email: Option<string>, password: string)
    ensures Merge(Merge(e, id, name, username, email, password), id, name, username, email, password)
         == Merge(e, id, name, username, email, password)
  {
  }

  /** A patch that carries no column and the entity's own password leaves the entity as it was. */
  lemma MergeEmptyPatch(e: UserEntity)
    ensures Merge(e, None, None, None, None, e.password) == e
  {
  }
}

/**
 * `UserDto` (packages/backend/src/models/dtos/UserDto.ts): the public view of a stored user,
 * which leaves the password on the server, and the JSON bodies clients send in its shape.
 */
module Dtos {
  import opened Wrappers
  import opened Entities

  /** The view sent to clients: the four public columns and nothing else. */
  datatype UserDto = UserDto(id: nat, name: string, username: string, email: string)

  /**
   * A request body as the client sent it. The declared body types are `UserDto` (update) and
   * `UserDto` without `id` (create), but nothing validates the JSON: a client may send an id or
   * a password, and may leave out any column.
   */
  datatype UserPayload = UserPayload(id: Option<nat>, name: Option<string>, username: Option<string>, email: Option<string>, password: Option<string>)

  /** The body carries every column a new row needs: `name`, `username` and `email`. */
  predicate HasColumns(b: UserPayload) {
    b.name.Some? && b.username.Some? && b.email.Some?
  }

  /** The stored record a view came from, given the password the view left out. */
  function WithPassword(v: UserDto, password: string): UserEntity {
    UserEntity(v.id, v.name, v.username, v.email, password)
  }

  /**
   * `new UserDto(entity)`: total on every record; the record is recovered from the view and its
   * own password, so the view keeps every column but the password, unchanged.
   */
  function New(e: UserEntity): (v: UserDto)
    ensures WithPassword(v, e.password) == e
  {
    UserDto(e.id, e.name, e.username, e.email)
  }

  /** `UserDto.fromEntity(entity)`, the form used with `Array.map`. */
  function FromEntity(e: UserEntity): (v: UserDto)
    ensures WithPassword(v, e.password) == e
  {
    New(e)
  }

  /** `fromEntity` and the constructor agree on every record. */
  lemma FromEntityIsNew(e: UserEntity)
    ensures FromEntity(e) == New(e)
  {
  }

  /** The view never carries the password: whatever password a record holds, its view is the same. */
  lemma ViewIgnoresPassword(v: UserDto, p1: string, p2: string)
    ensures New(WithPassword(v, p1)) == v
    ensures New(WithPassword(v, p1)) == New(WithPassword(v, p2))
  {
  }

  /** Two records project to the same view exactly when they differ at most in their password. */
  lemma SameViewIffSameButPassword(e1: UserEntity, e2: UserEntity)
    ensures New(e1) == New(e2) <==> e1.(password := e2.password) == e2
  {
  }

  /** The ids the views in `vs` carry. */
  ghost function Ids(vs: seq<UserDto>): set<nat> {
    set i | 0 <= i < |vs| :: vs[i].id
  }

  lemma IdsSnoc(vs: seq<UserDto>, v: UserDto)
    ensures Ids(vs + [v]) == Ids(vs) + {v.id}
  {
    var vs' := vs + [v];
    forall x | x in Ids(vs') ensures x in Ids(vs) + {v.id} {
      var i :| 0 <= i < |vs'| && vs'[i].id == x;
      if i < |vs| { assert vs[i].id == x; }
    }
    forall x | x in Ids(vs) ensures x in Ids(vs') {
      var i :| 0 <= i < |vs| && vs[i].id == x;
      assert vs'[i].id == x;
    }
    assert vs'[|vs|].id == v.id;
  }

  /**
   * `vs` holds one view for each record of `t` whose key is in `keys`, each the projection of
   * that record, in no particular order.
   */
  ghost predicate ListsKeys(t: Table, keys: set<nat>, vs: seq<UserDto>) {
    // implied by the next three conjuncts; stated so the prover need not count
    && |vs| == |keys|
    && (forall i :: 0 <= i < |vs| ==> vs[i].id in keys && vs[i].id in t && vs[i] == FromEntity(t[vs[i].id]))
    && (forall i, j :: 0 <= i < j < |vs| ==> vs[i].id != vs[j].id)
    && Ids(vs) == keys
  }

  /** `vs` is a response to "list all users" over table `t`: one view per stored record. */
  ghost predicate IsListing(t: Table, vs: seq<UserDto>) {
    ListsKeys(t, t.Keys, vs)
  }

  /** Appending the view of one more record extends a partial listing by that record's key. */
  lemma ListsOneMore(t: Table, keys: set<nat>, vs: seq<UserDto>, k: nat)
    requires ListsKeys(t, keys, vs)
    requires k in t && t[k].id == k && k !in keys
    ensures ListsKeys(t, keys + {k}, vs + [FromEntity(t[k])])
  {
    var v := FromEntity(t[k]);
    var vs' := vs + [v];
    assert |keys + {k}| == |keys| + 1;
    forall i | 0 <= i < |vs'|
      ensures vs'[i].id in keys + {k} && vs'[i].id in t && vs'[i] == FromEntity(t[vs'[i].id])
    {
      if i < |vs| { assert vs'[i] == vs[i]; }
    }
    forall i, j | 0 <= i < j < |vs'| ensures vs'[i].id != vs'[j].id {
      assert vs'[i] == vs[i];
      if j == |vs| {
        assert vs[i].id in keys;
      } else {
        assert vs'[j] == vs[j];
      }
    }
    IdsSnoc(vs, v);
  }

  /** The views of every stored record, as a set. */
  ghost function Views(t: Table): set<UserDto> {
    set k | k in t :: FromEntity(t[k])
  }

  /** A listing holds exactly the views of the stored records, whatever order it comes in. */
  lemma ListingHoldsEveryView(t: Table, vs: seq<UserDto>)
    requires IsListing(t, vs)
    ensures (set i | 0 <= i < |vs| :: vs[i]) == Views(t)
  {
  }
}

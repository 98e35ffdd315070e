# Users CRUD API: a Dafny model

This project models the backend core of a small full-stack sample: a REST API over one
relational `users` table. It covers three parts.

- The users controller, `packages/backend/src/controllers/UsersController.ts`. It has five request
  handlers: list all users, get one, create, delete and update. Each returns an abstract status:
  OK, Created with a `Location` header, Not Found, Conflict, or no answer when an error escapes the
  handler.
- The `UserEntity` record. Its primary key is generated by the store, and a unique index sits on
  `username`.
- The `UserDto` projection, which leaves the password out of everything sent to clients.

The store is a map from primary key to record, plus the next key the store will generate. TypeORM's
`find`, `findOne`, `save`, `delete` and `merge` become reads and updates of that map. The
controller is a class with these two fields and one method per handler. Every method keeps the
table invariant:

- each row is stored under its own id;
- no two rows share a username;
- every id is below the next generated key.

Each method states the new table and key in terms of the old ones, branch by branch.

Files:

- `wrappers.dfy`: `Option`.
- `entities.dfy`: the record, the table invariant, and lemmas that insert, replace and remove keep
  it. Also `merge` and why the identity check must come before it.
- `dtos.dfy`: the view, the request body, the projection and its lemmas, and what a listing is.
- `locations.dfy`: the `Location` header `/users/{id}`, with its decimal numeral and the proof that
  the numeral parses back to the id.
- `users_controller.dfy`: the controller class, the loop that projects every row, and a
  session that replays create, read, update, delete and read on an empty table.

The request body is modelled as the JSON a client may actually send. Each of `id`, `name`,
`username`, `email` and `password` may be present or absent, because nothing in the source
validates the body. So "the server always sets the password" is a statement about every body,
including one that carries a password. An update merges only the columns the body carries and
keeps the others. A create whose body leaves out a column fails the table's not-null columns at
`save` and is answered Conflict.

Three points where the handlers do less, or other, than a reader might expect. The model follows the code.

- **Username clash on update.** A clash is not answered Conflict. The update handler has no
  `catch` around `save` (UsersController.ts:148). Express does not catch a rejected promise from an
  async handler, and the server only logs it as an unhandled rejection. The model answers
  `Unhandled` and leaves the table unchanged. It does not answer Conflict, and it does not answer
  500.
- **Any failed create save.** The create handler answers Conflict for every failed `save`
  (UsersController.ts:83-87), not only a username clash. The `storeFault` parameter stands for any
  other failure of the store.
- **Missing body id on update.** A body with no `id` fails `userEntity.id !== requestBody.id` and
  is answered Conflict.

## Model

| member | source | states |
|---|---|---|
| Entities.DistinctRowsDistinctIds | packages/backend/src/models/entities/UserEntity.ts:10-11 | two different stored rows never carry the same primary key |
| Entities.HoldersOfUsername | packages/backend/src/models/entities/UserEntity.ts:16-21 | under the unique index a username is held by exactly one row when taken and by none when free |
| Entities.InsertKeepsInvariant | packages/backend/src/models/entities/UserEntity.ts:8-21 | inserting a row under the next generated key with a free username keeps keys equal to ids, usernames unique and ids below the counter; the key was unused and the table grows by one |
| Entities.ReplaceKeepsInvariant | packages/backend/src/models/entities/UserEntity.ts:16-21 | saving a row under its own id with a username no other row holds keeps the invariant and the set of keys |
| Entities.RemoveKeepsInvariant | packages/backend/src/models/entities/UserEntity.ts:8-21 | deleting a row keeps the invariant |
| Entities.Merge | packages/backend/src/controllers/UsersController.ts:146 | the merged entity keeps its primary key if and only if the patch carries no id or its own, so a patch with another id would rewrite the key, which the check at line 137 prevents |
| Entities.MergeIdempotent | packages/backend/src/controllers/UsersController.ts:146 | merging the same patch twice gives the same entity as merging it once |
| Entities.MergeEmptyPatch | packages/backend/src/controllers/UsersController.ts:146 | a patch with no columns and the entity's own password leaves the entity unchanged |
| Dtos.New | packages/backend/src/models/dtos/UserDto.ts:6-18 | the constructor is total, and the record is recovered exactly from its view and its own password: the view copies id, name, username and email unchanged and drops only the password |
| Dtos.FromEntity | packages/backend/src/models/dtos/UserDto.ts:21-23 | the view `fromEntity` returns, with the record's own password added back, is the record itself: only the password is dropped |
| Dtos.FromEntityIsNew | packages/backend/src/models/dtos/UserDto.ts:21-23 | `fromEntity(e)` equals `new UserDto(e)` for every record |
| Dtos.ViewIgnoresPassword | packages/backend/src/models/dtos/UserDto.ts:3-10 | the view of a record does not depend on its password: a view rebuilt into a record with any password projects back to itself |
| Dtos.SameViewIffSameButPassword | packages/backend/src/models/dtos/UserDto.ts:13-18 | two records project to the same view if and only if they differ at most in the password |
| Dtos.ListsOneMore | packages/backend/src/controllers/UsersController.ts:24 | appending the projection of one more stored row extends a listing of some keys to a listing of those keys plus that row's key |
| Dtos.ListingHoldsEveryView | packages/backend/src/controllers/UsersController.ts:22-24 | any listing, whatever its order, holds exactly the projections of the stored rows |
| Locations.Decimal | packages/backend/src/controllers/UsersController.ts:82 | the id in the location is a non-empty string of decimal digits with no leading zero |
| Locations.ParseDecimalOfDecimal | packages/backend/src/controllers/UsersController.ts:82 | the decimal numeral of an id reads back as that id |
| Locations.Location | packages/backend/src/controllers/UsersController.ts:82 | the `/users/${id}` header reads back, as a `/users/` prefix followed by decimal digits, to exactly the new user's id |
| Locations.LocationIdentifiesUser | packages/backend/src/controllers/UsersController.ts:82 | two ids give the same `/users/{id}` location if and only if they are the same id |
| Controllers.ProjectRows | packages/backend/src/controllers/UsersController.ts:22-24 | `find()` mapped through `fromEntity` gives one view per stored row, each the projection of that row, with distinct ids, in an order nothing fixes |
| Controllers.UsersController.constructor | packages/backend/src/models/entities/UserEntity.ts:10-11 | the store starts empty, the first generated key is 1, and the invariant holds |
| Controllers.UsersController.GetAllUsers | packages/backend/src/controllers/UsersController.ts:18-25 | answers OK with a listing of the table (one projected view per stored row) and changes nothing |
| Controllers.UsersController.GetUserById | packages/backend/src/controllers/UsersController.ts:32-52 | answers OK with the projection of the row under that key, or Not Found with no body when there is none; changes nothing |
| Controllers.UsersController.CreateUser | packages/backend/src/controllers/UsersController.ts:61-88 | on success, adds exactly one row under the next generated key, with the body's name, username and email and password "super-secret" whatever the body held. It answers Created at `/users/{id}` and leaves other rows alone. A column the body left out, a taken username or any other save failure answers Conflict and leaves the table and the counter unchanged |
| Controllers.UsersController.DeleteUserById | packages/backend/src/controllers/UsersController.ts:95-115 | removes exactly the row under that key and answers OK, so a later get answers Not Found; an absent key answers Not Found with the table unchanged |
| Controllers.UsersController.UpdateUserById | packages/backend/src/controllers/UsersController.ts:123-156 | an absent key answers Not Found. A body id that is missing or different answers Conflict before any merge or save, with the table unchanged. Otherwise it takes name, username and email from the body where the body carries them and keeps the stored ones where it does not, sets password "updated-password", keeps the id, answers OK and changes no other row. A failing save answers nothing and leaves the table unchanged |
| Controllers.AdaSession | packages/backend/src/controllers/UsersController.ts:32-156 | on an empty table: create answers Created at `/users/1`; a create without an email answers Conflict; the read returns the view without password; an update with body id 2 answers Conflict; an update with id 1 carrying only a name renames and keeps username and email; delete answers OK; the read after it answers Not Found |

## Left out

- Express wiring: middleware, the root route that answers 403, the 404 fallback, the error middleware, the port, and route registration. These live in `Server.ts`, `routes/UsersRoute.ts` and `utils/ErrorHandlerUtil.ts`, which are not part of this model.
- The React client and its network calls are not part of this model.
- Logging, `async`/`await`, and concurrent requests. Each handler runs as one atomic step on the table.
- The coercion of the path `:id` from a string to a number. Path ids are natural numbers here.
- TypeORM internals and SQL. A failed `save` is taken to leave the table unchanged and not to use up a generated key.
- A client-sent `id` on create. The handler would pass it to `save`, and the source's comment warns about exactly this. Create requires a body without an id.
- Failures of `find`, `findOne` and `delete`. `save` is the only call whose failure is modelled; only the create handler catches it.
- JavaScript number precision. Ids are unbounded natural numbers, taken to stay below 2^53, where a JavaScript number is exact. Above that the `!==` id check and the printed location would no longer match the model, and from 10^21 on JavaScript prints ids in exponent form.
- A JSON `null` for a column. A column is either carried with a string value or absent.

# people: a verified model of the people store

The `people` service keeps persons in PostgreSQL. There are three tables:
- **Users**: a serial id plus name, gender, nationality and age.
- **Emails**: a serial id, an owning user and an address that is unique across the table.
- **Friends**: a pair of user ids with the pair as primary key.

This project models two layers of that service in Dafny:
- the persistence layer (`internal/repository/storage`);
- the orchestration layer in front of it (`internal/usecase/usecase.go`).

The contents of the three tables are one value, `Schema.Db`. Each SQL template becomes a function over that value. The `Storage` object keeps the tables in fields, and its operations reassign them.

Modules, one per concern of the source:

| file | module | models |
|---|---|---|
| `types.dfy` | `Types` | the records of `internal/types/types.go`, the error vocabulary, `Result` |
| `text.dfy` | `Text` | Go's `strings.TrimSpace`, which `AddUserEmails` applies to every address |
| `schema.dfy` | `Schema` | the DDL of `migration.go`: tables, declared constraints, `IF NOT EXISTS` creation |
| `templates.dfy` | `Templates` | each statement of `templates.go` as a transition or a query |
| `batch.dfy` | `Batch` | the batches the storage methods queue, and running a batch |
| `storage.dfy` | `Storage` | what each storage operation does to the tables, the queueing and read loops, the `Storage` class |
| `usecase.dfy` | `UseCase` | `CreateUser` (enrich, then insert), read and write forwarding, the `UseCase` class |

Conventions of the model:

- **Invariant.** `Storage.WellFormed` is the invariant of the stored tables, and it has two parts:
  - what the DDL declares (`Schema.Consistent`): globally unique addresses, foreign keys from Emails and Friends to Users, and serial ids below their sequence's next value;
  - what the code adds (`Storage.Canonical`): every Friends row has its smaller id first. With the primary key, this gives one row per unordered pair and no self-pairs.

  Every operation is proved to keep `WellFormed`.
- **Batches.** A batch runs as one implicit transaction: its statements run in order, and the first failure aborts it with every table unchanged.
- **Inserts.** `ON CONFLICT ... DO NOTHING` is decided before the foreign-key check. An insert of a value that is already present is therefore a no-op, even for a missing user.
- **Connection.** Failure to acquire a pooled connection is the `Types.Connection` parameter. It is checked first, as `pool.Acquire` is in every method.
- **Enrichment.** The three enrichment lookups are fields of `UseCase.Enrichment`: opaque fallible functions of the first name.

Error cases, as the source returns them:
- `AddUserEmails` with an empty list returns `types.ErrNotFound` (internal/repository/storage/storage.go:297-300).
- `UpdateUser` and `DeleteUser` with no matching row return the formatted error "Not found user with id N" (internal/repository/storage/storage.go:393 and 420). The model calls it `Types.UserNotFound`. It does not wrap `ErrNotFound`.
- `Query` does not return `pgx.ErrNoRows`, so the `ErrNotFound` branches after `Query` are never taken (internal/repository/storage/storage.go:94-96, 178-180 and 224-226). Empty tables give empty lists.
- Only `GetUserInfoByID` reports a missing user as `ErrNotFound`, because it uses `QueryRow` (internal/repository/storage/storage.go:145-158).
- The use-case write wrappers return the storage error unchanged (internal/usecase/usecase.go:121-171).
- The use-case read wrappers return `ErrNotFound` as `ErrNotFound` and every other error as it is (internal/usecase/usecase.go:27-81).

## Model

| member | source | states |
|---|---|---|
| Text.TrimSpace | internal/repository/storage/storage.go:308 | the trimmed address is a contiguous slice of the input, cut only at whitespace, and neither starts nor ends with whitespace |
| Text.TrimSpaceIdempotent | internal/repository/storage/storage.go:308 | trimming an already trimmed address changes nothing |
| Schema.CreateIfNotExists | internal/repository/storage/migration.go:4-32 | `IF NOT EXISTS`: the object is present afterwards, nothing else is added, and an existing object is left alone |
| Schema.MigrateCreatesSteps | internal/repository/storage/storage.go:35-58 | running the creation statements in order yields the catalog plus exactly those objects |
| Schema.MigrateIdempotent | internal/repository/storage/migration.go:4-32 | running the migration a second time changes nothing |
| Schema.Migrate | internal/repository/storage/storage.go:35-58 | the creation statements in order: the catalog only grows, and every object of the statements exists afterwards |
| Schema.MigrateCreatesAll | internal/repository/storage/storage.go:35-58 | on a database without the tables, the migration creates all three tables and the index |
| Schema.UniqueEmails | internal/repository/storage/migration.go:16 | no two Emails rows, of any users, share an address |
| Schema.EmailOwnersExist | internal/repository/storage/migration.go:18 | every Emails row belongs to an existing user |
| Schema.FriendsExist | internal/repository/storage/migration.go:25-29 | both ids of every Friends row are existing users; the pair is stored at most once |
| Schema.SerialsFresh | internal/repository/storage/migration.go:5-14 | serial ids start at 1, and every id in use is below the next value of its sequence |
| Schema.Consistent | internal/repository/storage/migration.go:4-30 | every constraint the DDL declares holds |
| Templates.InsertUser | internal/repository/storage/templates.go:31 | inserts the user under a fresh id greater than every id in use, returns that id, keeps every other row, the Emails sequence and every constraint |
| Templates.InsertEmail | internal/repository/storage/templates.go:33 | an existing value makes the insert a no-op; otherwise it fails with a foreign-key violation exactly when the user is missing; on success the stored values grow by the address, old rows are kept and constraints hold |
| Templates.AddEmailRow | internal/repository/storage/migration.go:13-19 | a row with a new value under the next serial keeps the other tables and rows, adds exactly its value, and keeps the constraints when its owner exists |
| Templates.InsertFriendship | internal/repository/storage/templates.go:35 | an existing pair is a no-op; otherwise it fails exactly when either user is missing; on success exactly that pair is added and constraints hold |
| Templates.UpdateUserRow | internal/repository/storage/templates.go:37 | one row affected exactly when the id exists; the row gets all five new columns and no other row or table changes |
| Templates.DeleteUserRow | internal/repository/storage/templates.go:39 | one row affected exactly when the id exists; the cascades remove exactly that user's emails and the friendships naming the user |
| Templates.DeleteEmailRow | internal/repository/storage/templates.go:41 | removes only the row with that id and leaves both sequences alone; an absent id is a no-op |
| Templates.DeleteFriendshipRow | internal/repository/storage/templates.go:43 | removes exactly the ordered pair given; every other row and both sequences stay |
| Templates.FriendsOf | internal/repository/storage/templates.go:21-29 | each listed friend is a listed id with that user's name, and every listed id appears with its name |
| Templates.FriendIdsMatchEitherOrientation | internal/repository/storage/templates.go:21-29 | the friends query lists u for x exactly when (x, u) or (u, x) is stored |
| Templates.FriendIdsSymmetric | internal/repository/storage/templates.go:21-29 | u is listed as a friend of x exactly when x is listed as a friend of u |
| Templates.Exec | internal/repository/storage/templates.go:33-43 | each queued statement runs its template; deletes never fail, and only a foreign key rejects a statement |
| Templates.FriendRows | internal/repository/storage/templates.go:25-29 | the Friends rows naming the user in either column whose other member joins with a Users row |
| Templates.FriendIds | internal/repository/storage/templates.go:21-29 | the ids the friends query lists: the other member of each matched row |
| Templates.EmailsOf | internal/repository/storage/templates.go:4-6 | the addresses `ARRAY_AGG` collects for a user: the values of the user's Emails rows |
| Templates.EmailsQuery | internal/repository/storage/templates.go:19 | the rows `GetAllUserEmailsTemplate` selects: id, owner and address of each Emails row of the user |
| Templates.EmailsOfMatchesQuery | internal/repository/storage/templates.go:4-19 | an address is aggregated into the user's info exactly when some row of the user's email listing holds it |
| Batch.Canon | internal/repository/storage/storage.go:343-356 | the smaller id comes first, the pair holds the same two ids, and distinct ids are strictly ordered |
| Batch.EmailBatch | internal/repository/storage/storage.go:302-310 | one insert per address, in input order, trimmed and bound to the user |
| Batch.EmailDeleteBatch | internal/repository/storage/storage.go:442-449 | one delete per id, in input order |
| Batch.FriendDeleteBatch | internal/repository/storage/storage.go:475-492 | one delete per pair, in input order, with its two ids in ascending order |
| Batch.RunBatch | internal/repository/storage/storage.go:312-316 | `SendBatch(...).Close()`: the statements run in order on the tables the previous one left, and the first error ends the batch |
| Batch.RunBatchAppend | internal/repository/storage/storage.go:312-316 | sending a + b is sending a and then, unless a failed, sending b to the tables a left |
| Batch.CanonSymmetric | internal/repository/storage/storage.go:478-491 | (a, b) and (b, a) are put in the same order |
| Batch.FriendBatch | internal/repository/storage/storage.go:338-357 | every queued pair is strictly ordered and names the user; no pair is queued for the user's own id; every other given id gets its canonical pair |
| Batch.RunEmailInserts | internal/repository/storage/storage.go:302-316 | a batch of inserts for one user fails, with a foreign-key violation, exactly when the user is missing and some value is new |
| Batch.RunEmailInsertsAdds | internal/repository/storage/storage.go:302-316 | a successful batch adds exactly its values, keeps old rows, gives new rows to the user and leaves other tables alone |
| Batch.RunEmailInsertsConsistent | internal/repository/storage/migration.go:13-19 | a successful batch of email inserts keeps every schema constraint |
| Batch.RunFriendInserts | internal/repository/storage/storage.go:359-363 | a batch of pair inserts fails exactly when some pair names a missing user; otherwise exactly its pairs are added |
| Batch.RunFriendDeletes | internal/repository/storage/storage.go:494-498 | a batch of pair deletes succeeds and removes exactly its pairs |
| Batch.RunEmailDeletes | internal/repository/storage/storage.go:451-455 | a batch of email deletes succeeds and removes exactly its ids; absent ids are ignored |
| Storage.Canonical | internal/repository/storage/storage.go:343-356 | every stored pair has its smaller id first, the order every insert uses |
| Storage.WellFormed | internal/repository/storage/migration.go:4-30 | the invariant of the stored tables: the DDL's constraints plus the canonical order of Friends |
| Storage.BatchEffect | internal/repository/storage/storage.go:312-316 | the error `SendBatch(...).Close()` returns and the tables afterwards, defined from RunBatch; the all-or-nothing property is proved by FirstErrorAborts and RunBatchAppend |
| Storage.FirstErrorAborts | internal/repository/storage/storage.go:312-316 | when statement i is the first to fail, the batch returns its error and keeps none of the statements before it |
| Storage.CreateUserSpec | internal/repository/storage/storage.go:260-285 | without a connection: error and no change; otherwise a fresh id ≥ 1 holds the user, other tables and the Emails sequence are unchanged, and the invariant holds |
| Storage.AddEmailsSpec | internal/repository/storage/storage.go:288-319 | empty list: ErrNotFound and no change; otherwise success exactly when the user exists or every trimmed address is already stored; failure is a foreign-key violation with no change; success adds exactly the trimmed addresses for the user and leaves Users, Friends and the Users sequence alone |
| Storage.EmailBatchValues | internal/repository/storage/storage.go:302-310 | the queued statements insert exactly the trimmed addresses, all bound to the user |
| Storage.AddedEmailsListed | internal/repository/storage/storage.go:288-319 | after a successful AddUserEmails, every trimmed address that was not stored before is listed among the user's rows by GetAllUserEmails |
| Storage.TrimmedInBatch | internal/repository/storage/storage.go:304-310 | every trimmed address is inserted by some queued statement |
| Storage.BatchInTrimmed | internal/repository/storage/storage.go:304-310 | every queued statement inserts a trimmed address of the list |
| Storage.AddFriendsSpec | internal/repository/storage/storage.go:322-366 | reference effect of AddUserFriends: no connection gives that error and an empty list "No friends", both with no change; otherwise success exactly when the user and every other given id exist, and failure is a foreign-key violation with no change; on success every other given id is paired with the user in ascending order; users, emails and both sequences are never touched and no pair is lost; every new row is strictly ordered and joins the user with one of the given ids; the invariant holds |
| Storage.FriendInsertsEffect | internal/repository/storage/storage.go:336-363 | sending the queued batch has exactly the reference effect: all canonical pairs, or a foreign-key violation and nothing |
| Storage.FriendSetShape | internal/repository/storage/storage.go:338-356 | each pair AddUserFriends stores is strictly ordered and joins the user with one of the given ids |
| Storage.AddOneFriend | internal/repository/storage/storage.go:322-366 | adding a single id: nothing for the user's own id, otherwise the one canonical pair when both users exist, else a foreign-key violation |
| Storage.FriendBatchPairs | internal/repository/storage/storage.go:338-357 | the queued pairs are exactly the canonical pairs of the ids other than the user's, and name only existing users exactly when the user and those ids exist |
| Storage.UpdateUserSpec | internal/repository/storage/storage.go:368-398 | a missing id gives "Not found user with id" and no change; otherwise only that row is overwritten |
| Storage.DeleteUserSpec | internal/repository/storage/storage.go:400-425 | a missing id gives "Not found user with id" and no change; otherwise the row and its cascades go |
| Storage.DeleteEmailsSpec | internal/repository/storage/storage.go:428-458 | reference effect of DeleteEmails: no connection gives that error and an empty list "No emails", both with no change; any other list succeeds; only Emails rows are removed, kept rows and both sequences are unchanged; on success an existing row is gone exactly when its id was given; the invariant holds |
| Storage.EmailDeletesEffect | internal/repository/storage/storage.go:442-455 | sending the queued batch of deletes has exactly the reference effect |
| Storage.DeleteFriendsSpec | internal/repository/storage/storage.go:461-501 | reference effect of DeleteUserFriends: no connection gives that error and an empty list "No friends", both with no change; any other list succeeds; only Friends rows are removed and both sequences are unchanged; on success neither orientation of a given pair remains, and every removed row names the two ids of a given pair; the invariant holds |
| Storage.CanonSetMatches | internal/repository/storage/storage.go:477-492 | in canonical tables, deleting the canonical forms leaves neither orientation of a given pair, and each canonical form has the ids of a given pair |
| Storage.FriendDeletesEffect | internal/repository/storage/storage.go:475-498 | sending the queued batch of deletes has exactly the reference effect |
| Storage.AddFriendsOrientationBlind | internal/repository/storage/storage.go:343-356 | a adding b has the same result as b adding a |
| Storage.AddBothWaysOneRow | internal/repository/storage/storage.go:343-356 | adding (a, b) and then (b, a) succeeds and leaves exactly one new row, {min, max}, and never the reversed row |
| Storage.DeleteEitherOrientation | internal/repository/storage/storage.go:477-492 | deleting (b, a) removes a stored (a, b) and nothing else |
| Storage.DeleteUserCascade | internal/repository/storage/migration.go:18-29 | after a successful DeleteUser no email is the user's, no friend is listed for the user, and nobody lists the user as a friend |
| Storage.CreateUserFresh | internal/repository/storage/storage.go:260-285 | a newly created user owns no addresses and has no friends |
| Storage.OtherInjective | internal/repository/storage/templates.go:21-29 | in canonical tables, two different rows naming x list two different friends |
| Storage.FriendListing | internal/repository/storage/storage.go:233-257 | a list built from each matched row once lists exactly the friends, each once |
| Storage.QueueEmailInserts | internal/repository/storage/storage.go:302-310 | one insert per address, in order, trimmed and bound to the user |
| Storage.QueueFriendInserts | internal/repository/storage/storage.go:336-357 | the loop queues exactly the canonical batch, skipping the user's own id |
| Storage.QueueEmailDeletes | internal/repository/storage/storage.go:442-449 | one delete per id, in order |
| Storage.QueueFriendDeletes | internal/repository/storage/storage.go:475-492 | one delete per pair, in order, with the same two ids in ascending order |
| Storage.Storage.constructor | internal/repository/storage/storage.go:20-59 | after the migration on a new database, the catalog holds every schema object, and the tables are empty and well formed |
| Storage.Storage.SendBatch | internal/repository/storage/storage.go:312-316 | the batch is applied whole on success; on failure the tables are unchanged and the first error is returned |
| Storage.Storage.CreateUser | internal/repository/storage/storage.go:260-285 | returns the id and error of CreateUserSpec and leaves the tables it describes |
| Storage.Storage.AddUserEmails | internal/repository/storage/storage.go:288-319 | returns the error and leaves the tables that AddEmailsSpec describes |
| Storage.Storage.AddUserFriends | internal/repository/storage/storage.go:322-366 | returns the error and leaves the tables that AddFriendsSpec describes |
| Storage.Storage.UpdateUser | internal/repository/storage/storage.go:368-398 | returns the error and leaves the tables that UpdateUserSpec describes |
| Storage.Storage.DeleteUser | internal/repository/storage/storage.go:400-425 | returns the error and leaves the tables that DeleteUserSpec describes |
| Storage.Storage.DeleteEmails | internal/repository/storage/storage.go:428-458 | returns the error and leaves the tables that DeleteEmailsSpec describes |
| Storage.Storage.DeleteUserFriends | internal/repository/storage/storage.go:461-501 | returns the error and leaves the tables that DeleteFriendsSpec describes |
| Storage.Storage.CollectEmails | internal/repository/storage/templates.go:4-6 | the aggregated addresses are exactly the user's, each once |
| Storage.Storage.GetUserInfoByID | internal/repository/storage/storage.go:134-165 | a missing user is ErrNotFound; otherwise the user's row with exactly its addresses |
| Storage.Storage.GetAllUsersInfo | internal/repository/storage/storage.go:83-132 | every user exactly once, each with its row and exactly its addresses; an empty table is an empty list |
| Storage.Storage.GetAllUserEmails | internal/repository/storage/storage.go:167-211 | exactly the user's Emails rows, each once; no rows is an empty list |
| Storage.Storage.GetUserFriends | internal/repository/storage/storage.go:213-258 | exactly the user's friends with their names, each friend once |
| UseCase.ForwardRead | internal/usecase/usecase.go:27-81 | a result passes unchanged; an error stays ErrNotFound exactly when it was ErrNotFound |
| UseCase.ForwardReadIdentity | internal/usecase/usecase.go:27-81 | the read wrappers return exactly what storage returned |
| UseCase.CreateUserFlow | internal/usecase/usecase.go:83-119 | the first failing lookup (age, then gender, then nationality) is returned with id 0 and nothing written; once all lookups succeed, the error is the storage insert's own error (its connection failure) and the id is 0; success exactly when all lookups and the insert succeed, storing the input name with the looked-up values under a fresh id |
| UseCase.UseCase.constructor | internal/usecase/usecase.go:19-25 | the use case holds the given storage and lookups |
| UseCase.UseCase.CreateUser | internal/usecase/usecase.go:83-119 | returns the id and error of CreateUserFlow and leaves the tables it describes |
| UseCase.UseCase.GetUserInfoByID | internal/usecase/usecase.go:27-39 | the storage result, with ErrNotFound for a missing user |
| UseCase.UseCase.GetAllUsersInfo | internal/usecase/usecase.go:41-53 | the storage listing of every user |
| UseCase.UseCase.GetAllUserEmails | internal/usecase/usecase.go:55-67 | the storage listing of the user's addresses |
| UseCase.UseCase.GetUserFriends | internal/usecase/usecase.go:69-81 | the storage listing of the user's friends |
| UseCase.UseCase.AddUserEmails | internal/usecase/usecase.go:121-128 | exactly the storage error and effect |
| UseCase.UseCase.AddUserFriends | internal/usecase/usecase.go:130-137 | exactly the storage error and effect |
| UseCase.UseCase.UpdateUser | internal/usecase/usecase.go:139-145 | exactly the storage error and effect |
| UseCase.UseCase.DeleteUser | internal/usecase/usecase.go:147-153 | exactly the storage error and effect |
| UseCase.UseCase.DeleteEmails | internal/usecase/usecase.go:155-162 | exactly the storage error and effect |
| UseCase.UseCase.DeleteUserFriends | internal/usecase/usecase.go:164-171 | exactly the storage error and effect |

## Left out

- **HTTP and startup.** The HTTP router and server, configuration loading, logging and server startup are not part of this model.
- **Enrichment lookups.** The HTTP calls behind Age, Gender and Nationality are opaque functions, so what happens inside a lookup is not modelled. That includes the nationality lookup's unchecked indexing of an empty country list.
- **Transport.** The connection pool, `Ping` and the pgx batch transport are reduced to the `Connection` parameter and all-or-nothing batches. Round-trip failures after a connection is acquired are not modelled.
- **Migration failures.** The constructor models a successful migration on a new database. A migration that fails halfway, and the contents of tables that already exist, are not modelled.
- **Query and read failures.** Logging and `errors.Join` of row-scan failures are left out, and so are SQL query errors other than a missing connection.
- **Row order.** Query results are lists with exactly the right elements, each once. Their order (PostgreSQL's, unspecified in the SQL) is not modelled.
- **`ARRAY_AGG`.** The aggregation is modelled as the set of a user's addresses. A `NULL` result for a user with no addresses is read as an empty list.
- **Serial ids.** The sequences never reuse ids, and ids are unbounded naturals. Three things are not modelled:
  - gaps left by aborted inserts;
  - gaps left by skipped inserts. PostgreSQL draws the serial value before it checks `ON CONFLICT`, so an `AddEmailTemplate` insert of an address that is already stored still advances the Emails sequence. The model advances `nextEmailId` only when a row is stored, so after such an insert the source's next Emails id is higher than the model's;
  - the range of PostgreSQL's `integer` against Go's `uint64`.
- **Concurrency.** Each storage operation is one atomic step on the tables. Concurrent requests, which PostgreSQL serialises only through its row locks and transactions, are not interleaved in the model.
- **Schema catalog.** The catalog of created objects (`Storage.Storage.catalog`) is kept apart from the table contents. The objects' definitions are not modelled, only whether each exists.
- **`User.Age`.** The column is an `integer`, but it is a `uint8` in Go. The model keeps the Go range.
- **Storage.Storage.GetUserInfoByID** models a lookup of the user by id. The template it runs (internal/repository/storage/templates.go:4-7) binds the numeric id to a filter on `last_name`, so the source does not look the user up by id; the model does.
- **Storage.Storage.GetAllUserEmails** returns id, owner and address of each row. The source's query selects three columns but scans two (internal/repository/storage/storage.go:191-194), which fails at run time.

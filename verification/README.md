# Users data-access layer, modelled in Dafny

This project models the data-access core of the users service: the record
type it stores (`DBUser`), how a new record is hydrated from a creation
request and converted into the wire user, and the repository that reads and
writes the `users`, `user_user_follows` and `user_source_follows` tables.

- `wrappers.dfy` — `Option` and `Result`, for Go's nil results and `(value, error)` pairs.
- `uuid.dfy` (module `Uuid`) — the canonical 8-4-4-4-12 text form of a UUID
  (section 3 of RFC 4122): `Format` is the lower-case text that `UUID.String`
  writes, `Parse` the canonical branch of `uuid.FromString`. Both round trips
  are proved: `Parse(Format(id)) == Some(id)`, and a parsed text is the
  formatted id up to the case of its digits.
- `model.dfy` (module `Model`) — `DBUser` with its nullable audit columns
  (`NullString`, `NullInt64`), its four audit accessors,
  `HydrateModelForCreate` and `ToGRPC`. The generated id and the clock reading
  are parameters of hydration; the audit-field conversion of the shared proto
  package is a function parameter that may fail.
- `transaction.dfy` (module `Transaction`) — the begin → prepare → exec →
  commit state machine of both writers. Whether each step, and the rollback,
  fails is an oracle input (`TxFaults`); `Reported` says which step's error is
  returned.
- `repository.dfy` (module `Repository`) — the three keyed lookups and their
  shared routine as functions of a snapshot of `users`, the uniqueness
  pre-check, and the class `DataRepository` whose fields are the three tables.
  Its writers stage their statement's effect inside the transaction and
  write the tables only at commit, so on any error the tables are unchanged
  and on success exactly the one row or edge changes.

The follow helper is modelled as written: it ignores its `statement`
argument and always prepares the add-user-follower insert
(internal/service/datarepository.go line 184), so all four follow wrappers
insert into `user_user_follows`. The corrected helper is modelled beside it
(see Findings).

Lookups and the pre-check take, for each query, whether the store reports an
error; such an error, like "no rows", makes the lookup fail, and the
pre-check then treats the user as absent. Only a failed rollback replaces
the error of the step that triggered it; the triggering error is then lost.

## Model

| member | source | states |
|---|---|---|
| `Uuid.Format` | internal/service/model.go:75 | the text of a new id is 36 characters with hyphens at positions 8, 13, 18 and 23 |
| `Uuid.Parse` | internal/service/model.go:50 | a text parses exactly when it has 36 characters, hyphens at positions 8, 13, 18 and 23 and a hexadecimal digit of either case elsewhere, and then to the bytes those digits spell |
| `Uuid.ParseFormat` | internal/service/model.go:69-75 | the text written for any id parses back to that same id |
| `Uuid.FormatParse` | internal/service/model.go:50 | a text that parses is the canonical text of its id up to the case of its digits |
| `Model.HydrateModelForCreate` | internal/service/model.go:68-85 | fails with status code Internal exactly when id generation fails; otherwise the id text is the generated id's canonical text and parses back to it, creator and updater are that id, both timestamps are the one clock reading, both nullable columns are set, and username, email and hashed password are the request's |
| `Model.ToGRPC` | internal/service/model.go:49-65 | an id that does not parse fails with the id error whatever the audit conversion would do; then an audit failure fails; it succeeds exactly when both succeed, with the parsed id bytes, the converted audit fields and the three copied fields |
| `Model.AuditFieldsAccessorsFaithful` | internal/service/model.go:29-46 | two records give the same audit accessors' values exactly when their four audit fields are equal |
| `Model.HydratedRecordConverts` | internal/service/model.go:68-85 | a hydrated record never fails conversion at the id step, and converts to the generated id's bytes whenever its audit fields convert |
| `Transaction.Reported` | internal/service/datarepository.go:179-208 | a writer succeeds exactly when no step fails; a begin failure is returned without a rollback; after a prepare, exec or commit failure a failed rollback is returned instead; otherwise the first failing step is returned |
| `Repository.FirstMatch` | internal/service/datarepository.go:97 | the query finds a row whose column equals the key, or there is none |
| `Repository.GetUser` | internal/service/datarepository.go:95-111 | succeeds exactly when the store answers and some stored row has the key in the column, returning such a row; a failure carries no record, names the column and key, and says whether the store faulted |
| `Repository.GetUserByID` | internal/service/datarepository.go:66-73 | returns a stored row with that id, or fails naming the id |
| `Repository.GetUserByUsername` | internal/service/datarepository.go:76-83 | returns a stored row with that username, or fails naming the username |
| `Repository.GetUserByEmail` | internal/service/datarepository.go:86-93 | returns a stored row with that email, or fails naming the email |
| `Repository.ValidateUserForCreate` | internal/service/datarepository.go:211-221 | true exactly when the email lookup faulted or the email is unused, and the username lookup faulted or the username is unused |
| `Repository.ValidatedInsertKeepsKeysUnique` | internal/service/datarepository.go:211-221 | with both lookups answering, inserting a candidate that passed keeps emails and usernames unique |
| `Repository.LookupFaultAdmitsDuplicate` | internal/service/datarepository.go:212-216 | when both lookups fault, a candidate whose email and username are both taken passes, and inserting it breaks uniqueness |
| `Repository.StoredRow` | internal/service/datarepository.go:252-261 | the inserted row has both nullable columns set, to the record's string and number, and otherwise equals the record |
| `Repository.StoredRowOfSetAuditColumns` | internal/service/datarepository.go:252-261 | a record whose nullable columns are set is stored unchanged |
| `Repository.CreatedUserIsFound` | internal/service/datarepository.go:240-275 | after the insert of a record with an unused id, looking up that id returns the stored row |
| `Repository.FollowEffect` | internal/service/datarepository.go:113-169 | a follow statement changes only its own table and only the given edge, which is present afterwards exactly for an insert |
| `Repository.FollowEffectIdempotent` | internal/service/datarepository.go:113-169 | executing a follow statement twice leaves the tables as executing it once |
| `Repository.StatementArgumentIgnored` | internal/service/datarepository.go:184 | whatever statement a wrapper passes, the helper executes the add-user-follower insert |
| `Repository.AsWrittenDivergesFromIntended` | internal/service/datarepository.go:179-184 | the executed insert leaves different tables from the statement the wrapper passes: for RemoveUserFollower on every table state, for AddSourceFollower and RemoveSourceFollower whenever the edge is not already in `user_user_follows` |
| `Repository.AsWrittenUnfollowKeepsEdge` | internal/service/datarepository.go:139-144 | as written, follow then unfollow of a user leaves the edge in `user_user_follows` |
| `Repository.IntendedUnfollowUndoesFollow` | internal/service/datarepository.go:131-169 | with the intended statements, follow then unfollow leaves the named table without the edge and otherwise as before |
| `Repository.IntendedUnfollowOfAbsentEdge` | internal/service/datarepository.go:131-169 | with the intended statements, unfollowing an absent edge changes nothing |
| `Repository.WrapFollowError` | internal/service/datarepository.go:125-127 | a wrapper fails exactly when the helper does, tagging the helper's step with its own operation |
| `Repository.DataRepository.constructor` | internal/service/datarepository.go:44-48 | a repository starts over the given tables |
| `Repository.DataRepository.ExecuteInTransaction` | internal/service/datarepository.go:179-208 | returns the step `Reported` names, which depends on the step outcomes alone, so success never depends on how many rows the statement affected; the tables become the statement's effect on success and are unchanged on any error |
| `Repository.DataRepository.CreateUser` | internal/service/datarepository.go:240-275 | on success `users` gains exactly the stored row at its end; on any error it is unchanged; the follow tables never change |
| `Repository.DataRepository.PerformFollowStatement` | internal/service/datarepository.go:179-208 | on success exactly the edge is added to `user_user_follows`, whatever the statement; on any error nothing changes; `users` and `user_source_follows` never change |
| `Repository.DataRepository.PerformFollowStatementIntended` | internal/service/datarepository.go:179-208 | on success the tables are the given statement's effect; on any error nothing changes |
| `Repository.DataRepository.AddUserFollower` | internal/service/datarepository.go:124-129 | on success the edge is in `user_user_follows`; an error carries the operation and step; on error nothing changes |
| `Repository.DataRepository.RemoveUserFollower` | internal/service/datarepository.go:139-144 | as written, on success the edge is added to `user_user_follows`; on error nothing changes |
| `Repository.DataRepository.AddSourceFollower` | internal/service/datarepository.go:157-162 | as written, on success the edge is added to `user_user_follows` and `user_source_follows` is unchanged |
| `Repository.DataRepository.RemoveSourceFollower` | internal/service/datarepository.go:172-177 | as written, on success the edge is added to `user_user_follows` and `user_source_follows` is unchanged |

## Findings

| source | as written | input that shows it | evidently intended | confidence | as-written member | corrected member |
|---|---|---|---|---|---|---|
| internal/service/datarepository.go:184 | the follow helper prepares `addUserFollowerStatement` and ignores its `statement` argument | `RemoveUserFollower("a", "b")` with every step succeeding, on tables without that edge: the edge ("a", "b") is inserted into `user_user_follows` | prepare the `statement` the caller passes, so each wrapper runs its own insert or delete | high; not executed | `Repository.DataRepository.PerformFollowStatement`, with `Repository.AsWrittenUnfollowKeepsEdge` and `Repository.AsWrittenDivergesFromIntended` | `Repository.DataRepository.PerformFollowStatementIntended`, with `Repository.IntendedUnfollowUndoesFollow` and `Repository.IntendedUnfollowOfAbsentEdge` |

The four wrapper methods keep calling the as-written helper, since that is
what the service runs.

## Left out

- SQL text, `database/sql`, the MySQL client and row scanning: tables are values, and statement constants are tags that select an effect.
- Unique keys and duplicate-edge behaviour belong to a schema that is not part of this model; follow tables are sets, and any constraint the store enforces appears as an exec failure in the oracle.
- `context.Context` cancellation and deadlines, which concern timing and concurrency.
- The `fmt.Printf` logging in `ValidateUserForCreate` and the text of every wrapped error message; errors are datatypes carrying the failing step, or the column and key of a lookup.
- `uuid.NewV4` randomness and `time.Now`: hydration takes the generation outcome and the clock reading as parameters.
- `proto.DBAuditFieldsToGRPC` and the wire audit message: the conversion is a parameter that may fail, and its result type is a type parameter.
- Uuid.Parse: accepts only the canonical 36-character text; gofrs `FromString` also accepts braced, URN and undashed 32-digit forms, on which the model's `ToGRPC` fails where the service would succeed.
- Repository.GetUser: keys are compared as exact strings. The `WHERE uuid=?`, `username=?` and `email=?` comparisons (internal/service/datarepository.go:67, 77, 87) run under the column's collation in MySQL, and a case-insensitive collation would match more keys (a stored "bob@x.com" found for "Bob@x.com"), so `ValidateUserForCreate` would reject candidates the model accepts; the schema is not part of this model, and `KeysUnique` means exact-string uniqueness.
- Repository.GetUser: the query has no ORDER BY, so the store may return any matching row; the model returns the earliest in table order, and its contract promises only some matching row.
- The rollback outcome after a failed commit is an oracle input like the others; `database/sql`'s transaction, which is not part of this model, usually refuses a rollback once a commit was attempted.
- Go strings are byte strings and Dafny strings are character sequences; they differ only for non-ASCII text, which never parses as an id.
- The `DataRepository` interfaces (lines 12-37) and `NewDataRepository` beyond its constructor: they carry no logic.
- internal/service/handler.go (`HealthCheck` returns nothing, `Login` returns "not implemented"), internal/boot/strap.go, internal/server/grpc.go, internal/bootstrap/bootstrap.go and cmd/main.go: process and transport plumbing. Identifier validation, credential checking and follow-type dispatch appear in none of the modelled files and are not part of this model.

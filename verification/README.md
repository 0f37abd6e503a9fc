# Key-value pipeline: a Dafny model

This project models a small HTTP key-value store built in three tiers. Each
tier has a closed set of outcomes and re-types the outcomes of the tier below:

- **Storage tier** (`repo`): single-key CRUD on a `kv` table whose `key` column
  is the primary key. Module `Repo` has a class `Repo` with the table as a
  `map<string, string>` field. `Create`, `Update` and `Delete` modify that
  field, and `Get` steps the row cursor of a SELECT. Each method's result and
  new table equal a pure function (`GetOutcome`, `CreateOutcome`,
  `UpdateOutcome`, `DeleteOutcome`), and those functions carry the
  properties. A map holds one value per key, which is exactly the
  primary-key invariant.
- **Service tier** (`service`): module `Service`. The `RepoStorage` interface is
  a datatype of four functions, and `State` holds one. Its four operations are
  functions of the answer that storage gives to the one matching call. They
  turn `KeyExists` into `ResourceExists` and `KeyNotFound` into
  `ResourceNotFound`, and wrap anything else in `RepoError`. `RepoError` has
  no `Unwrap`. `UpdateValue` hands the storage error up unchanged, and the
  extra variant `RepoTier` stands for such an error.
- **HTTP tier** (`api`): module `Api`. Its `Service` interface is a datatype of
  four functions. The four handlers are member functions of `Server`.
  `Validate` models the checks that create and update both make: a body with
  a `value`, and a non-empty key. A handler returns `Respond(response)` or
  `Propagate(err)`. These are the two shapes Go's `(response, error)` pair
  takes in this code.
- **Wiring** (module `Pipeline`): `Storage(t, e)` is the repository's answers
  from table `t`, and `Wire` hands the service state to the server as its
  service. `Serve` runs one request end to end and returns the reply and the
  new table. `Run` serves a sequence of requests one after another.

Go's `errors.As` becomes a test of the datatype's tag. This is exact here: the
typed errors hold no wrapped error, and the wrapped engine errors are never
typed errors of these tiers.

The SQL engine is not modelled. What it does wrong during one call is an
`Engine` parameter: a failing statement, a failing row cursor or a failing
scan. Its errors come back as `Storage(stage, cause)`. `stage` names the step
whose wrapping message the Go code attaches.

Two consequences of the code as written are proved, not changed:

- A duplicate create is refused by the engine's primary-key constraint. It
  reaches the top as a propagated error, which means status 500, never 409.
  `NewKeyExistsError` (repo/repo.go:35) is never called, so the service's
  `ResourceExists` branch and the handler's 409 branch cannot happen
  (`Serve`, `RunNeverConflicts`). The storage tier is described as failing
  with `KeyExists` on a duplicate key. The model follows the code instead.
- An update of a missing key reaches the handler as the storage tier's own
  `KeyNotFound`. The handler tests for `ResourceNotFound`, so it propagates
  the error (status 500) instead of answering 404.

A third consequence comes from the row cursor. `rows.Next()` returns false both
when there is no row and when the cursor fails, and `rows.Err()` is never
consulted. A cursor failure therefore reads as `KeyNotFound` (repo/repo.go:77-79).

## Model

| member | source | states |
|---|---|---|
| `Repo.ResolvePath` | repo/repo.go:39-48 | The path opened is never empty: the given path when non-empty, otherwise `DefaultDBPath` = "kv.db". |
| `Repo.GetOutcome` | repo/repo.go:67-85 | Success exactly when the key is stored and the engine does not fail, and then the value is the stored one. On every error the value is "". A failing SELECT gives the wrapped prepare error. With a working statement, an absent key or a failing cursor gives `KeyNotFound` for that key, and a failing scan of a stored row gives the wrapped scan error. Get never reports `KeyExists`. |
| `Repo.CreateOutcome` | repo/repo.go:87-95 | Success exactly when the key is absent and the INSERT runs, and the new table is the old one plus that record. An existing key gives the wrapped `UniqueConstraint` storage error, never `KeyExists`, and leaves the table unchanged. Other keys are untouched. |
| `Repo.UpdateOutcome` | repo/repo.go:97-109 | Success exactly when the key is present and the UPDATE runs, and only that key's value is replaced. A failing UPDATE always gives the wrapped update failure, never not-found. With a working statement, an absent key gives `KeyNotFound(key)` and changes nothing. |
| `Repo.DeleteOutcome` | repo/repo.go:111-123 | Success exactly when the key is present and the DELETE runs, and exactly that record is removed. A failing DELETE always gives the wrapped delete failure, never not-found. With a working statement, an absent key gives `KeyNotFound(key)` and changes nothing. |
| `Repo.Repo.New` | repo/repo.go:44-60 | Success exactly when opening and the schema statement both succeed. The repository then uses the resolved path and keeps the records already on disk. Each failure gives its wrapped storage error and no repository. |
| `Repo.Repo.Get` | repo/repo.go:67-85 | The cursor-stepping method returns exactly what `GetOutcome` gives for the current table. |
| `Repo.Repo.Create` | repo/repo.go:87-95 | The error and the new table are `CreateOutcome` of the old table. A duplicate leaves the table as it was and is not `KeyExists`. |
| `Repo.Repo.Update` | repo/repo.go:97-109 | The error and the new table are `UpdateOutcome` of the old table. An absent key changes nothing. |
| `Repo.Repo.Delete` | repo/repo.go:111-123 | The error and the new table are `DeleteOutcome` of the old table. Once the statement runs, the key is absent. |
| `Repo.CreateThenGet` | repo/repo.go:68-95 | Creating an absent key succeeds, and a following read returns the created value. |
| `Repo.CreateTwiceKeepsFirst` | repo/repo.go:88-95 | A second create of the same key fails with the constraint error, and a read still returns the first value. |
| `Repo.LastWriteWins` | repo/repo.go:98-109 | Create, then update, then read returns the updated value. |
| `Repo.DeleteThenGet` | repo/repo.go:113-123 | Deleting a present key succeeds, and a following read gives `KeyNotFound`. |
| `Service.State.CreateKeyValue` | service/service.go:65-78 | A nil storage answer gives nil. `KeyExists` gives `ResourceExists(key)`. Any other error gives `RepoError` wrapping it. The result is never a not-found or storage-tier error. |
| `Service.State.ReadValue` | service/service.go:80-93 | On success the value is exactly the storage's value, with no error. `KeyNotFound` gives ("", `ResourceNotFound(key)`). Any other error gives ("", `RepoError`). |
| `Service.State.UpdateValue` | service/service.go:95-97 | Succeeds exactly when storage succeeds. Any error is the storage error itself (`RepoTier`), never `ResourceNotFound`. |
| `Service.State.DeleteKeyValue` | service/service.go:99-112 | A nil storage answer gives nil. `KeyNotFound` gives `ResourceNotFound(key)`. Any other error gives `RepoError`. |
| `Service.OnlyTheMatchingCall` | service/service.go:47-59 | Each operation depends on storage only through the matching call with its own key and value. |
| `Api.Validate` | api/api.go:102-109 | A request passes exactly when its body has a `value` and its key is non-empty. It then forwards that key and value. |
| `Api.Server.DeleteKeyValue` | api/api.go:72-84 | The key goes to the service unchecked. Success gives 204, `ResourceNotFound` gives 404, and any other error is propagated as it is. |
| `Api.Server.ReadValue` | api/api.go:86-99 | The key goes to the service unchecked. Success gives 200 carrying exactly the service's value, `ResourceNotFound` gives 404, and any other error is propagated. |
| `Api.Server.CreateKeyValue` | api/api.go:101-121 | A malformed request gives 400 whatever the service would answer. Otherwise success gives 201, `ResourceExists` gives 409, and any other error is propagated. |
| `Api.Server.UpdateValue` | api/api.go:123-143 | A malformed request gives 400 whatever the service would answer. Otherwise success gives 204, `ResourceNotFound` gives 404, and any other error is propagated. |
| `Pipeline.Serve` | main.go:29-41 | Through the wired tiers, only the named record can change, and reads change nothing. The reply is 400 exactly for malformed create or update requests, and no reply is ever 409. A valid create answers 201 exactly when the key is absent and the statement runs, and then the record is added. An update or delete answers 204 exactly when the key is present and the statement runs, and then the value is replaced or the record removed. A read answers 200 with the stored value exactly when the key is stored and the engine does not fail. A delete or read of an absent key answers 404 when the statement runs. Every reply other than 201 or 204 leaves the table unchanged. |
| `Pipeline.CreateNeverResourceExists` | service/service.go:71-77 | Over the real repository, a create fails only with `RepoError` wrapping a storage error, so the `ResourceExists` branch is dead. |
| `Pipeline.UpdateMissingLeaksKeyNotFound` | service/service.go:95-97 | Over the real repository, whenever the UPDATE statement runs, updating a missing key returns the storage tier's `KeyNotFound` for that key. |
| `Pipeline.DuplicateCreateIsInternalError` | api/api.go:110-120 | Creating an existing key ends as the propagated wrapped constraint error (500, not 409), and the table is unchanged. |
| `Pipeline.UpdateMissingIsInternalError` | api/api.go:132-140 | Updating a missing key ends as the propagated storage `KeyNotFound` (500, not 404), and the table is unchanged. |
| `Pipeline.CreateReadDuplicateDeleteRead` | api/api.go:72-121 | On a fresh key, create, read, create, delete, read answer 201, then 200 with the value, then 500, 204 and 404. The table ends as it started. |
| `Pipeline.MalformedStoresNothing` | api/api.go:102-107 | A create or update with no value or an empty key answers 400, and a later read of the key still answers 404. |
| `Pipeline.Run` | api/api.go:72-143 | Serving a sequence of requests through the handlers, one after another, gives one reply per request. |
| `Pipeline.RunServesInOrder` | api/api.go:72-143 | The reply to each request is that request served against the table the earlier requests left, and the final table is the one the last request leaves. |
| `Pipeline.RunLeavesOtherKeys` | repo/repo.go:55 | A record that no request of a sequence names is unchanged by the whole sequence. |
| `Pipeline.RunNeverConflicts` | repo/repo.go:90-93 | No reply of any request sequence is 409, whatever the requests and the engine do. |

## Left out

- `main.go` bootstrap: signal handling, logger construction and exit codes. The model keeps only the wiring of the three tiers (`Pipeline`).
- `api.New` and `api.Run`: the HTTP server, `ListenAndServe`, the shutdown goroutine with its 5-second timeout, and the generated routing and marshalling code. That generated code is not part of this model. Requests and responses are plain datatypes, and a propagated error is taken to be answered as 500, as the surrounding framework does.
- `Repo.Close`, `sql.Open` details, the SQL statements themselves and the `RowsAffected` error that `Update` and `Delete` ignore. The engine is a parameter, and "rows affected is zero" is map membership.
- Concurrency between requests and the shared database handle. `Run` serves requests strictly one after another, so interleavings are not modelled.
- `context.Context` arguments, which are unused, and loggers.
- Error message text and `%w` wrapping chains. Only the error's kind, its key and the failing step are kept.
- `service.New`: it only stores the repository in `State`, which the `State` datatype's constructor does.
- The testify mock in the service tests. Any `RepoStorage` value, not only `Storage(t, e)`, can stand in for it.
- A storage is assumed to answer only with the storage tier's error kinds, as the real repository does. In Go, a `RepoStorage` may return any `error`. For example, a storage whose `Update` answered with a service `ResourceNotFoundError` would have it passed up by `UpdateValue` and answered 404 by the handler. `Service.State.UpdateValue`'s "never `ResourceNotFound`" holds for an arbitrary storage only because of this typing.
- `Pipeline.Run` serves requests strictly one after another. It stands for the server's handling of requests, which in the program is concurrent and not modelled.

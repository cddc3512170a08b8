# Passwordless token store and request/verify protocol, in Dafny

This project models the core of a passwordless-login library written in Go. The library
issues a single-use token for a user id, hands it to a transport for delivery, and
stores only a bcrypt hash of it with an expiry. Later it verifies a token the user
submits and, on success, deletes the stored one.

- `token_store.dfy` (module `TokenStore`): the package's error values, and the
  `TokenStore` interface's promises. The promises are stated as predicates
  (`StoreHonours`, `ExistsHonours`, `VerifyHonours`, `DeleteHonours`) over an abstract
  view, `Tokens`: at most one token and expiry per user id.
- `store_sqlite.dfy` (module `SQLite`): the SQLite store. The session table is a
  `map<string, Row>` keyed by uid, its primary key. `Store`, `Delete` and the corrected
  `DeleteRow` are methods of the class `SQLiteStore`, which owns the table. The read-only
  lookups (`GetSessionByUID`, `Exists`, `Verify`) are functions of the table, because
  the Go methods only read the database. `Represents` relates the table to the abstract
  view. Lemmas prove that each operation keeps the interface's promises, and that over
  any run of `Store` calls the last call for a user wins.
- `protocol.dfy` (module `Protocol`): `RequestToken` and `VerifyToken` over the
  collaborators the tests use:
  - a generator that returns a fixed token or error;
  - a transport that records the token and recipient it is sent;
  - a token store that gives fixed replies and logs every call it receives, so the
    contracts can say which calls happen and in what order.
- `registry.dfy` (module `Registry`): the `Passwordless` registry of named strategies,
  and the protocol run by strategy name.
- `end_to_end.dfy` (module `EndToEnd`): the SQLite store under `VerifyToken`, with
  `Delete` as written and with `DeleteRow`.

Time is whole seconds. The clock reading `now`, the bcrypt salt, and every database,
hashing or parsing failure are arguments. A failure carries its text and becomes
`Other(text)`, so it can never be mistaken for a sentinel.

## Model

| member | source | states |
|---|---|---|
| `TokenStore.Message` | store.go:10-15 | An error has a text exactly when it is one of the four store sentinels or an Other error, and an Other error's text is its own message. The registry's sentinels have no known text. |
| `TokenStore.StoreSentinelsDistinct` | store.go:10-15 | The four store sentinels report pairwise distinct texts, so "not found", "expired" and the construction errors can be told apart. |
| `TokenStore.StoreHonours` | store.go:19-20 | A Store that reports no error leaves the abstract store in exactly the state `Stored` describes. |
| `TokenStore.ExistsKeepsPromise` | store.go:21-24 | Exists is true only for a live token, and then returns its expiry with no error. When it is false the expiry is the zero time (the SQLite store's reading of "otherwise it will be zero"). With no error it is true exactly for a live token. |
| `TokenStore.ErrorsTruthful` | store.go:10-11 | TokenNotFound means the user has no token; TokenExpired means the user has one and it has lapsed. |
| `TokenStore.ExistsHonours` | store.go:21-24 | Exists keeps its promise and its sentinels are truthful. |
| `TokenStore.VerifyKeepsPromise` | store.go:25-26 | Verify is true only with no error, and with no error it is true exactly when the token is the user's live token. |
| `TokenStore.VerifyHonours` | store.go:25-26 | Verify keeps its promise and its sentinels are truthful. |
| `TokenStore.DeleteHonours` | store.go:27-28 | A Delete that reports no error removes the user's entry and nothing else. |
| `TokenStore.Stored` | store.go:19-20 | After Store, the user's token is accepted exactly when it is the stored token and the clock is at or before now + ttl. Every other user keeps its entry. |
| `TokenStore.VerifyAfterStore` | store.go:19-26 | For any store that keeps the contract, a successful Store followed by an error-free Verify is true exactly for the stored token before its expiry. |
| `TokenStore.VerifyAfterDelete` | store.go:25-28 | For any store that keeps the contract, after a successful Delete, Verify never reports the user's token valid, nor expired. |
| `SQLite.Hash` | store_sqlite.go:61-62 | The bcrypt compare law: a hash of a token opens for that token and no other string. |
| `SQLite.Compare` | store_sqlite.go:129-130 | CompareHashAndPassword succeeds for the candidate; through `Hash`'s law, exactly for the hashed token. |
| `SQLite.GetSessionByUID` | store_sqlite.go:143-177 | The order of outcomes: a failed query reports its error; then a missing row, or a failed step to the row, is TokenNotFound; then a scan or parse failure reports its error; otherwise the row's hash, expiry and created time for that uid. |
| `SQLite.Exists` | store_sqlite.go:96-111 | True exactly for an error-free lookup of an unexpired row (now <= expires), and then it returns the stored expiry. Otherwise it returns false, the zero time and an error. A missing row, or a failed step to it, is TokenNotFound, and an expired row is TokenExpired, never the stale expiry. A failed query, or a row that cannot be scanned or parsed, gives (false, zero time) with that failure's own error. |
| `SQLite.Verify` | store_sqlite.go:114-136 | True exactly for an error-free lookup of an unexpired row whose hash matches the token. A missing row, or a failed step to it, gives (false, TokenNotFound). An expired row gives (false, TokenExpired) whatever the token. A live row with a non-matching token gives (false, no error). A failed query, or a row that cannot be scanned or parsed, gives false with that failure's own error, never the clean negative of a mismatch. |
| `SQLite.Upsert` | store_sqlite.go:53-73 | The user's row gets the new hash and expires = now + ttl. An existing row keeps its created time; a new row is created at now. No other row changes, and no other key is added. |
| `SQLite.SQLiteStore.Store` | store_sqlite.go:53-93 | On a failure, that failure's error is returned and the table is unchanged. Otherwise the table becomes the upsert of the hashed token, and the stored token verifies as (true, no error) at every second up to and including its expiry. |
| `SQLite.SQLiteStore.Delete` | store_sqlite.go:139-141 | Always returns the "TODO Delete" error and changes nothing. |
| `SQLite.SQLiteStore.DeleteRow` | store.go:27-28 | The corrected Delete: removes exactly the user's row, or on a failure returns the error and changes nothing. |
| `SQLite.SQLiteStore.constructor` | store_sqlite.go:45-49 | The store holds the given table name, the ISO-8601 layout and the connection's table. |
| `SQLite.NewSQLiteStore` | store_sqlite.go:38-50 | No connection gives (nil, DBConnectionNotValid). Otherwise a fresh store over the connection's table, named "session" when the name is empty, with the ISO-8601 layout. |
| `SQLite.ExistsHonoursContract` | store.go:21-24 | On any table that represents an abstract store, Exists keeps the interface's Exists promise whatever fails, and its sentinels are truthful unless the step to the row fails. |
| `SQLite.VerifyHonoursContract` | store.go:25-26 | On any table that represents an abstract store, Verify keeps the interface's Verify promise whatever fails, and its sentinels are truthful unless the step to the row fails. |
| `SQLite.StepFailureReportsNotFound` | store_sqlite.go:154-161 | When stepping to the first row fails, Exists and Verify report TokenNotFound even for a user who has a row, so that sentinel is then untruthful. |
| `SQLite.StoreHonoursContract` | store.go:19-20 | Upserting hash(token) with expiry now + ttl represents exactly the abstract Store of that token and ttl. |
| `SQLite.DeleteRowHonoursContract` | store.go:27-28 | Removing the user's row represents exactly the abstract Delete. |
| `SQLite.StoreThenVerify` | store_sqlite_test.go:87-97 | After Store(token), on every table: Verify(token) is (true, no error) up to the expiry second and (false, TokenExpired) after it. Any other token is (false, no error). Exists reports the stored expiry. |
| `SQLite.StoreExpiredThenLookup` | store_sqlite_test.go:53-58 | After a Store with negative ttl, Exists is (false, zero time, TokenExpired) and Verify of any token is (false, TokenExpired). |
| `SQLite.ReplaceInvalidatesEarlier` | store_sqlite.go:55-58 | After a second Store for the same user, the earlier token is (false, no error), the newer one is (true, no error), and the created time is kept. |
| `SQLite.LastStoreWins` | store_sqlite.go:55-58 | After any run of Store calls, a user named by some call holds the hash and expiry of its last call. Any other user's row is untouched. |
| `SQLite.OnlyLastTokenVerifies` | store_sqlite.go:117-135 | After any run of Store calls, Verify accepts exactly the user's last stored token, and only up to that call's expiry. |
| `Protocol.Transport.constructor` | passwordless_test.go:13-17 | A transport starts with no token and no recipient recorded, and with the error it is to return. |
| `Protocol.Transport.Send` | passwordless_test.go:19-23 | Records the token and recipient it is given and returns its configured error. |
| `Protocol.MockTokenStore.constructor` | passwordless_test.go:191-196 | A store with fixed replies for Store, Verify and Delete, and an empty call log. |
| `Protocol.MockTokenStore.Store` | passwordless_test.go:198-200 | Logs the call with its token, uid and ttl, and returns the fixed store error. |
| `Protocol.MockTokenStore.Verify` | passwordless_test.go:206-208 | Logs the call and returns the fixed verify reply. |
| `Protocol.MockTokenStore.Delete` | passwordless_test.go:210-212 | Logs the call and returns the fixed delete error. |
| `Protocol.FirstFailing` | passwordless_test.go:101-137 | The index of the first failing stage: every earlier stage succeeded, and the stage at the index (if any) failed. |
| `Protocol.FirstError` | passwordless_test.go:101-137 | No error exactly when every stage succeeds; otherwise the first failing stage's error. |
| `Protocol.RequestToken` | passwordless_test.go:101-137 | The result is the first failing stage's error, unchanged, in the order generate, send, store. A generate failure touches neither transport nor store. Once generate succeeds, the transport gets exactly the generated token and the recipient. A send failure leaves the store untouched. Otherwise the store gets exactly one Store call with that token, the uid and the strategy's ttl. |
| `Protocol.VerifyTokenOutcome` | passwordless_test.go:139-166 | Valid exactly when verify says valid with no error. A verify error is passed on with false. A clean negative is (false, no error). A valid token carries the delete's error. |
| `Protocol.VerifyToken` | passwordless_test.go:139-166 | Reports the outcome above. The store sees one Verify call, followed by one Delete for that uid only when the token was valid with no error. |
| `Registry.Passwordless.New` | passwordless_test.go:41-43 | A registry over the given store with no strategy. |
| `Registry.Passwordless.SetStrategy` | passwordless_test.go:95 | Registers the strategy under its name, replacing any other of that name. |
| `Registry.Passwordless.SetTransport` | passwordless_test.go:45-55 | Registers and returns the always-valid strategy built from the transport, generator and ttl. GetStrategy of that name then returns that same strategy. |
| `Registry.Passwordless.GetStrategy` | passwordless_test.go:89-90 | The registered strategy, or UnknownStrategy exactly when the name is not registered. |
| `Registry.Passwordless.ListStrategies` | passwordless_test.go:49-50 | Exactly the registered names, each mapped to the strategy GetStrategy returns. |
| `Registry.Passwordless.RequestToken` | passwordless_test.go:89-98 | An unregistered name gives UnknownStrategy, and a strategy not valid for the context gives NotValidForContext. In both cases nothing is generated, sent or stored. Otherwise the protocol's RequestToken runs with that strategy and the registry's store. A generate failure leaves that strategy's transport untouched, and no other strategy's transport is ever touched. |
| `Registry.Passwordless.VerifyToken` | passwordless_test.go:62-70 | The protocol's VerifyToken on the registry's store. |
| `EndToEnd.StubDeleteLeavesTokenReplayable` | passwordless_test.go:62-70 | With the SQLite store and the Delete stub: a wrong token is (false, no error). The right token is (true, "TODO Delete"). The table still holds the token, so it verifies again up to its expiry. |
| `EndToEnd.DeleteRowConsumesToken` | store.go:27-28 | With the SQLite store and DeleteRow: the right token is (true, no error). Afterwards it is rejected as TokenNotFound at every later second. |

## Left out

- `SQLite.ExistsHonoursContract`, `SQLite.VerifyHonoursContract`: the truthfulness of TokenNotFound is proved only when the step to the row does not fail. `getSessionByUID` (store_sqlite.go:154-161) returns `ErrTokenNotFound` whenever `rows.Next()` is false, without reading `rows.Err()`, so a failed step is reported as not found; `SQLite.StepFailureReportsNotFound` states this.
- `SQLite.Verify`: a non-matching token gives (false, no error), as both tests assert (store_sqlite_test.go:90-92, passwordless_test.go:63-65). The code at store_sqlite.go:132 wraps `ErrTokenNotValid`, which no modelled file declares. `errors.WithStack` of a nil error is nil, so the model takes that value to be nil; that is the one reading under which the code and the tests agree.
- The file that defines the registry and protocol (`New`, `SetStrategy`, `SetTransport`, `GetStrategy`, `ListStrategies`, `RequestToken`, `VerifyToken`) is not part of this model. Their behaviour is modelled as passwordless_test.go asserts it.
  - Validity for the context is checked in `Registry.Passwordless.RequestToken`, not in `GetStrategy`.
  - `ListStrategies` takes no argument; its only call passes nil.
  - The text of `ErrUnknownStrategy` and `ErrNotValidForContext` is unknown, so `Message` gives None for them.
- The registry runs over the logging store with fixed replies, not over the SQLite store. The two meet only in `EndToEnd`, through the functions that specify them.
- The test store's closures ignore their arguments, so it is modelled by fixed replies. Its `exists` closure is never called and is not modelled.
- The nil store passed at passwordless_test.go:103 is a logging store here. Its empty log shows that no store call happens.
- `Protocol.Transport`: its error is a constant set at construction. In Go it is a field that the tests set once and never change.
- `Sanitize` (passwordless_test.go:34-36, 183-185) is not modelled: no tested path calls it.
- example/main.go is not modelled: HTTP routing, cookie sessions, rate limiting, templates, the SMTP transport and database file creation.
- `createDB` (store_sqlite_test.go:15-39) is not modelled: it does file-system and database I/O. The table is a map, and its primary key is the map's key.
- SQL text, sqlx's `Named`/`In` expansion and the driver are not modelled. The upsert's effect is modelled directly.
  - The table name is interpolated unchecked, so `TableNameNotValid` is never raised.
  - `dateFormat` and the table name are recorded but not used by the map.
- bcrypt internals are not modelled: salting is a salt argument, and the cost factor and constant-time comparison are absent. The 72-byte input limit of newer bcrypt versions is also absent, so only the compare law holds.
- Time is not modelled below whole seconds.
  - `now` and `ttl` are whole seconds, whereas Go's `time.Duration` counts nanoseconds and formatting truncates to the second.
  - The two clock readings in `Store` are one `now`.
  - A stored timestamp that does not parse is the `ReadFailed` lookup outcome.
- Error wrapping (`errors.WithStack`) is not modelled: errors are compared by kind, as the tests compare them.
- The `ctx` arguments are not modelled, and neither is concurrency: database atomicity and concurrent registry access.

## Findings

| source | as written | input that shows it | evidently intended | confidence | as-written member | corrected member |
|---|---|---|---|---|---|---|
| store_sqlite.go:139-141 | `Delete` returns the error "TODO Delete" and removes no row. `VerifyToken` therefore reports a verified token with that error, and the token stays valid. | Store("1337", "uid", 5 minutes), then VerifyToken("uid", "1337"), as at passwordless_test.go:58-70. The result is (true, "TODO Delete"), not the (true, no error) the test asserts at line 69, and the same token verifies again. | Delete removes the user's row (store.go:27-28). A verified token is then reported with no error and rejected as not found afterwards. | not executed | `EndToEnd.StubDeleteLeavesTokenReplayable` | `EndToEnd.DeleteRowConsumesToken` |

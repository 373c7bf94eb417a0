# flipt flag server: pagination normalisation and the store facade

This project models the flag half of flipt's `Server`: the request facade that
answers Get/List/Create/Update/Delete calls for flags and variants by passing them
to a storage backend, and the one piece of logic it adds, the normalisation of a
list request's raw `int32` offset and limit into bounded storage query parameters.

- `flipt.dfy` (module `Flipt`): the plain record fields of the RPC messages
  (flags, variants, requests, `FlagList`, the empty acknowledgement) and Go's `int32`.
- `storage.dfy` (module `Storage`): `QueryParams{Offset, Limit}` over Go's `uint64`,
  `QueryOption` as a tagged mutator (`WithOffset`, `WithLimit`), the left-to-right
  fold `ApplyAll` that specifies them, the loop `ApplyOptions` that mutates a
  zero-valued `QueryParams` option by option, and the fact that each field ends up
  with the value of the last option setting it.
- `memstore.dfy` (module `MemStore`): an in-memory store standing in for the
  backend, a class whose fields (flags in insertion order, variants by id, the
  next variant number, and the options its most recent list call received, which
  the pagination test checks) its methods update in place. Stores answer with a
  `Result` (value or error) as Go's `(value, error)` pairs do.
- `server.dfy` (module `FlagServer`): `DefaultLimit = 20`, `MaxLimit = 50`, the
  normaliser `Normalize`, the two options `PaginationOptions` emits, and the class
  `Server`, which holds its store (injected at construction) and nothing else.
- `flag_test.dfy` (module `FlagTest`): the test file's scenarios, including the
  pagination table and the matcher that folds the options a list call receives.

`server/flag.go` and the `storage` package are not part of this model; their
behaviour is reconstructed from the test file `server/flag_test.go` and from the
design of the component. Where that design leaves a choice (what an empty or
unknown key does in the store) the store double makes the choice documented below.

The server's list call asks the store for one page and nothing else. The plain
list test (`server/flag_test.go:46-53`) sends the same request as the first row of
the pagination table, and its store expects only the list call, so the server does
not ask for a count on this path. The store's `CountFlags` is modelled as part of the
store (`server/flag_test.go:118` gives it an answer), but the server does not call it.

## Model

| member | source | states |
|---|---|---|
| Storage.ApplyOptions | server/flag_test.go:119-123 | applying the options in order to a zero-valued QueryParams, mutating it in place, gives the fold `ApplyAll` from zero, and so each field holds the last value an option gave it (0 if none) |
| Storage.ApplyAllConcat | server/flag_test.go:119-123 | applying a concatenation of option lists is applying the first list and then the second to its result |
| Storage.ApplyAllLastWins | server/flag_test.go:119-123 | after any options, Offset is the argument of the last offset option and Limit that of the last limit option, each falling back to the starting value |
| Storage.DisjointOptionsCommute | server/flag_test.go:119-123 | an offset option and a limit option give the same params in either order, namely exactly their two arguments |
| FlagServer.Normalize | server/flag_test.go:59-104 | for every `int32` offset and limit the result has 1 <= Limit <= 50 and an Offset within `int32` range, never negative |
| FlagServer.PaginationOptions | server/flag_test.go:119-125 | the server emits two options, and folding them from a zero QueryParams gives exactly the normalised params |
| FlagServer.NormalizePolicy | server/flag_test.go:66-104 | a negative offset becomes 0, a non-negative one is kept; a non-positive limit becomes 20, one above 50 becomes 50, one in 1..50 is kept; offset and limit are normalised independently |
| FlagServer.NormalizeKeepsOnlyValidInput | server/flag_test.go:66-104 | the raw offset and limit arrive at the store unchanged if and only if 0 <= offset and 1 <= limit <= 50; any other input is corrected |
| FlagServer.NormalizeIdempotent | server/flag_test.go:66-104 | normalising an already normalised pair changes nothing |
| FlagServer.NormalizeLimitMonotone | server/flag_test.go:81-104 | among positive requested limits, a larger request never yields a smaller page size |
| FlagServer.Server.GetFlag | server/flag_test.go:14-35 | the result is the store's flag under the requested key when there is one, and the store's NotFound error otherwise |
| FlagServer.Server.ListFlags | server/flag_test.go:37-57 | the options handed to the store's list call fold from zero to exactly the normalised params; never fails; returns the store's page selected by them, so at most 50 flags, non-empty exactly when the normalised offset is below the number of stored flags |
| FlagServer.Server.CreateFlag | server/flag_test.go:150-176 | on a free key, returns a flag echoing the request's four fields and the store gains it at the end; on a taken key, the store's AlreadyExists error and nothing changes; variants and the variant counter are untouched |
| FlagServer.Server.UpdateFlag | server/flag_test.go:178-204 | on an existing key, returns a flag echoing the request and replaces that flag in place; otherwise the store's NotFound error and nothing changes; variants and the variant counter are untouched |
| FlagServer.Server.DeleteFlag | server/flag_test.go:206-224 | returns the empty acknowledgement; the flags become exactly the old sequence without the key (the others in their order), a Get of the key is NotFound; variants and the variant counter are untouched |
| FlagServer.Server.CreateVariant | server/flag_test.go:226-254 | returns a variant echoing the request's fields with a store-assigned id (the decimal form of the counter) not used before; the store gains it and the counter advances by one; flags are untouched |
| FlagServer.Server.UpdateVariant | server/flag_test.go:256-285 | on an existing id, returns a variant echoing the request, id included, and stores it; otherwise the store's NotFound error and nothing changes; flags and the variant counter are untouched |
| FlagServer.Server.DeleteVariant | server/flag_test.go:287-305 | returns the empty acknowledgement and removes exactly the variant with that id; flags and the variant counter are untouched |
| MemStore.Store.GetFlag | server/flag_test.go:24-27 | the store's lookup: Ok with the flag of that key if one is held, NotFound(key) otherwise |
| MemStore.Store.ListFlags | server/flag_test.go:118-137 | records the options it receives, as the test's store does for its matcher, folds them from zero and returns the page they select, never an error |
| MemStore.Store.CountFlags | server/flag_test.go:118 | the count is the boundary of the pages: a page with a positive limit is empty exactly when its offset is at or past the count |
| MemStore.Page | server/flag_test.go:126-137 | a page holds at most Limit flags, taken consecutively from position Offset, and, for a positive Limit, is empty exactly when Offset is at or past the end |
| MemStore.Store.CreateFlag | server/flag_test.go:165-170 | the store's create, as the facade's CreateFlag states it, keeping keys distinct |
| MemStore.Store.UpdateFlag | server/flag_test.go:193-198 | the store's update, as the facade's UpdateFlag states it |
| MemStore.Store.DeleteFlag | server/flag_test.go:218 | the store's idempotent delete: always succeeds and leaves the flags without the key |
| MemStore.Store.CreateVariant | server/flag_test.go:241-248 | the store's create: the id is the decimal form of a counter starting at 1, fresh among the stored ids |
| MemStore.Store.UpdateVariant | server/flag_test.go:272-279 | the store's update of a variant by id |
| MemStore.Store.DeleteVariant | server/flag_test.go:299 | the store's idempotent delete of a variant by id |
| MemStore.IndexOfKey | server/flag_test.go:24-27 | the position of the first flag with the key, or -1 exactly when no flag has it |
| MemStore.WithoutKey | server/flag_test.go:218 | keeps exactly the flags with another key, and keeps keys distinct |
| MemStore.WithoutKeyAbsent | server/flag_test.go:218 | removing a key no flag holds leaves the flags unchanged |
| MemStore.WithoutKeyCutsOut | server/flag_test.go:218 | removing a key that only one flag holds (always the case with distinct keys) cuts that flag out of the sequence, the rest keeping their order |
| MemStore.DecimalStringInjective | server/flag_test.go:242 | different counters give different variant ids |
| FlagTest.MatchesExpected | server/flag_test.go:119-125 | the matcher accepts the options exactly when folding them from zero gives the expected params |
| FlagTest.PaginationTableHolds | server/flag_test.go:60-105 | every row of the table: (0,0), (-1,0), (0,-1), (0,0) give {0, 20} and (0,100) gives {0, 50} |
| FlagTest.NormalizeExtremes | server/flag_test.go:62-63 | the smallest `int32` offset and limit give {0, 20}; the largest give {2147483647, 50} |
| FlagTest.StoreWithFlags | server/flag_test.go:46-51 | builds a valid store holding one flag per given key, in order |
| FlagTest.TestGetFlag | server/flag_test.go:14-35 | Get of "foo" on a store holding flag foo (enabled) returns that flag unchanged |
| FlagTest.TestListFlags | server/flag_test.go:37-57 | a list request with no pagination on a store with one flag returns a non-empty list |
| FlagTest.TestListFlagsPagination | server/flag_test.go:107-147 | for every table row, against a store of three flags, the options the server handed to the store's list call fold to the expected params, and the list is non-empty |
| FlagTest.TestCreateFlag | server/flag_test.go:150-176 | create returns the flag with key, name, description and enabled as requested |
| FlagTest.TestUpdateFlag | server/flag_test.go:178-204 | update of an existing flag returns it with the requested fields |
| FlagTest.TestDeleteFlag | server/flag_test.go:206-224 | delete returns the acknowledgement with no error |
| FlagTest.TestCreateVariant | server/flag_test.go:226-254 | the first variant created gets id "1" and echoes the request's fields |
| FlagTest.TestUpdateVariant | server/flag_test.go:256-285 | update of variant "1" returns it with the requested fields |
| FlagTest.TestDeleteVariant | server/flag_test.go:287-305 | delete of variant "1" returns the acknowledgement with no error |

## Left out

- The mock store machinery of the tests (expectations, argument matchers) and the request context: replaced by the in-memory store `MemStore.Store`; a context carries no behaviour here.
- The server's logger: logging has no observable contract.
- RPC message types beyond their plain fields; `Attachment` is an opaque string.
- Real storage backends, their persistence and their concurrency: the in-memory store is sequential and stands in for all of them.
- Store errors other than NotFound (get or update of a missing key or id) and AlreadyExists (create of a taken flag key): no InvalidArgument validation and no internal failures are produced; the facade returns whatever the store returns, unchanged.
- Deletes of a missing key or id succeed silently in the store double; a backend may choose NotFound instead.
- The store double does not check that a variant's flag exists, nor remove a flag's variants when the flag is deleted.
- Filter options on list and count calls (only pagination options exist in this model), so the count is the number of all flags.
- A total count beside the page: the design allows the server to return the store's count with a list, but the plain list test's store expects no count call, so the model's list response holds only the page.

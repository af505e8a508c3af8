# Task store REST service — Dafny model

A model of a small HTTP service that keeps "task" records in memory and serves
four routes: list all tasks (`GET /tasks`), create a task (`POST /tasks`), read
one task (`GET /tasks/{id}`) and delete one task (`DELETE /tasks/{id}`). All
state is one map from task id to task. The map starts out holding the two seed
tasks "1" and "2".

The model keeps the decisions the four handlers make and drops the HTTP
plumbing. Each handler is a pure function from an abstracted request and the
store to a `Step`. A step holds the status, an optional JSON payload and the
next store.

- `results.dfy` — `Results`: `Option` and `Result`. `Result` models a Go
  `(value, error)` pair.
- `tasks.dfy` — `Tasks`: the `Task` record, `Store = map<string, Task>`, the
  task schema's key set, the key/id invariant `WellKeyed`, and the seed store.
- `handlers.dfy` — `Handlers`: the statuses (200, 204, 400, 415), the four
  handlers, and lemmas that relate several handler calls.
- `server.dfy` — `Server`: one request type covering the four routes, the
  dispatch to the handlers, and sequential replay of a request sequence.
  `Run` and `Replies` describe the replay as functions; `Serve` is the replay
  as a loop that collects the replies. It also has lemmas that hold for every request
  sequence.

The create handler depends on two library calls. Both are inputs to the model,
not reimplemented:

- The Content-Type parse (`mime.ParseMediaType`) becomes a `Result<string>`.
- The strict JSON decode of the body (`DisallowUnknownFields`) becomes a
  `Result<Task>`.

`StrictDecoding` records what strict decoding promises. A body never decodes
successfully if it has a key that matches none of `id`, `description`, `note`
and `applications`. Go's decoder matches keys to fields ignoring case, so
`ID` or `Description` is a known key (`KnownKey`), not an unknown one.

The list handler's 204 reply carries no payload. The handler does pass a
message to `http.Error`, but Go's net/http sends no body with status 204. The
model follows what goes on the wire, not the message text.

## Model

| member | source | states |
|---|---|---|
| Tasks.Seed | precode.go:19-41 | The store starts with exactly the keys "1" and "2". Each entry is filed under its own id. |
| Handlers.GetTasks | precode.go:60-64 | An empty store gives 204 with no payload. A non-empty store gives 200 with the whole store as payload. The store never changes. |
| Handlers.InsertTask | precode.go:70-94 | Gives 200 exactly when the header parses, the media type is exactly application/json, the body decodes and the id is new. A parse error, a decode error or a taken id gives 400. Any other media type gives 415. On success the store becomes the old store plus `id ↦ task` and grows by one. On every error the store is unchanged. The key/id invariant is preserved. There is never a payload. |
| Handlers.GetTaskID | precode.go:100-106 | 200 with payload `tasks[id]` exactly when `id` is present, 400 with no payload otherwise. The store never changes. Under the key/id invariant, the returned task carries the requested id. |
| Handlers.DeleteTaskID | precode.go:112-119 | 200 exactly when `id` is present, 400 otherwise. The new key set is the old one minus `id`. Every remaining entry is untouched. An absent id leaves the store unchanged. The key/id invariant is preserved. |
| Handlers.ListingOfSeed | precode.go:60-64 | Listing the seed store gives 200, and the payload has exactly the keys "1" and "2". |
| Handlers.RejectedInsertChangesNothing | precode.go:71-92 | A refused create answers 400 or 415 and leaves the store as it was. |
| Handlers.MediaTypeCheckedBeforeBody | precode.go:71-84 | If the header is malformed or names another media type, the reply and the store do not depend on the body. The media-type check comes before decoding. |
| Handlers.OtherMediaTypeIs415 | precode.go:76-79 | Any media type other than application/json gives status 415 (code 415), whatever the body holds. |
| Handlers.UnknownFieldIs400 | precode.go:80-88 | Under strict decoding, a JSON body with a key that matches no task field in any case gives 400 and stores nothing. |
| Handlers.CaseVariantKeysAccepted | precode.go:80-94 | Keys that differ from the field names only in case, such as `ID` and `Description`, are compatible with strict decoding. Such a body with a fresh id is stored and answered 200. |
| Handlers.DuplicateIdIs400 | precode.go:89-92 | Creating a task with an id already present gives 400 and leaves the whole store unchanged. |
| Handlers.InsertThenGet | precode.go:93-106 | After a successful create, reading the new id gives 200 with exactly the posted task. |
| Handlers.InsertThenList | precode.go:60-93 | After a successful create, listing answers 200, and the listed store holds the posted task under its id. |
| Handlers.InsertThenDeleteRestores | precode.go:89-119 | Deleting a task right after creating it succeeds and gives back the store as it was before the create. |
| Handlers.DeleteNotIdempotent | precode.go:101-118 | After a successful delete of `id`, a second delete and a read of `id` both answer 400. |
| Server.Handle | precode.go:46-49 | The route table: each request goes to its handler. It has no contract of its own. `HandleKeepsWellKeyed`, `HandleFrame` and `HandleOnEntry` state its facts. |
| Server.HandleKeepsWellKeyed | precode.go:89-118 | Every route preserves the key/id invariant. |
| Server.HandleFrame | precode.go:46-49 | Listing and reading never change the store. A create only adds keys. A delete only removes keys. |
| Server.HandleOnEntry | precode.go:89-118 | Through one request, an entry that survives keeps its value. An entry that appears is the task that request posted. |
| Server.Run | precode.go:57-120 | The store after serving a sequence of requests one after another. It has no contract of its own. `RunKeepsWellKeyed`, `EntryNeverRewritten`, `EntryHasOrigin` and `Serve` state its facts. |
| Server.RunKeepsWellKeyed | precode.go:89-119 | The key/id invariant holds after any sequence of requests served in order, provided it held at the start. |
| Server.Replies | precode.go:46-49 | Serving a sequence of requests gives exactly one reply per request. |
| Server.RepliesAreHandlerAnswers | precode.go:57-120 | Reply `i` of a run is the handler's answer for request `i` on the store the earlier requests left. |
| Server.Serve | precode.go:46-49 | Serving requests one at a time in a loop gives one reply per request, and the replies and final store of the sequential run. |
| Server.EntryNeverRewritten | precode.go:89-93 | There is no update operation. An entry present at the start keeps its exact value through any request sequence that never deletes its id. |
| Server.EntryHasOrigin | precode.go:89-93 | Every entry after a request sequence either was present at the start with the same value, or is exactly the task some request in the sequence posted. |
| Server.SeededRunsAreWellKeyed | precode.go:19-41 | Starting from the seed store, every entry is filed under its own id after any request sequence. |

## Left out

- Route registration with the chi router, `ListenAndServe` on port 8000 and its startup error message (precode.go:43-55). This is framework and network plumbing; `Server.Handle` keeps only the route-to-handler table.
- Request logging with `log.Printf`. It is a side effect only.
- The internals of `mime.ParseMediaType`: lower-casing, parameter parsing, and the error for a missing header, which reads as the empty string. The parse outcome is an input.
- Handlers.StrictDecoding: it folds only ASCII case. Go's decoder also folds a few non-ASCII letters onto ASCII field letters (`ſ` onto `s`, the Kelvin sign `K` onto `k`), so a few more keys count as known in Go than `KnownKey` admits.
- The internals of the `encoding/json` decoder: syntax errors, reading only the first JSON value, `null` for `applications`. The decode outcome is an input, with `StrictDecoding` as the only assumption about it.
- `renderJson`: encoding the payload with `json.Marshal`, setting the `Content-Type: application/json` header, and the 500 replies when marshalling or writing fails. These are library and I/O failures with no logic of the service behind them; a 200 reply's payload is the value that would be encoded.
- The JSON encode/decode round trip of a task. It is a property of the `encoding/json` library, not of this service.
- The text of error messages. The status carries the contract.
- Concurrent requests racing on the shared, unsynchronised map. The model serves requests one after another.

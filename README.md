# Write-batching blog pipeline, modelled in Dafny

The system is a small blog service. A gRPC data service validates a create
request, trims its author, genre and location (the content is passed on as
sent) and appends a flat six-field entry to a Redis
stream named after the genre (`blogs:genre:<genre>`). A stream worker reads
those entries in a consumer group and decodes each one into a `BlogRow`. It
files the row in an in-memory buffer keyed by `(genre, location)`. Next to
every buffer it keeps the arrival time of the first item and a running byte
estimate. A key is flushed once its item count, its age or its byte estimate
reaches a threshold. A flush sends all rows in one bulk-insert call, then
acknowledges the stream entries once per source stream, then empties the key.
The data service also guards its bulk update and bulk delete calls, and turns a
zero count from a stored procedure into NOT_FOUND.

The project has five modules:

- `Wrappers` (`wrappers.dfy`): the `Option` type.
- `Blogs` (`blogs.dfy`): `BlogRow`, the VALUES clause of the multi-row INSERT,
  and the flat parameter list that `bulk_insert` builds. `BulkInsert` is a
  method with a loop.
- `Worker` (`worker.dfy`): the worker's buffer table. It is the class
  `BlogWorker`, whose map fields `buffers`, `bufferFirstAt` and `bufferBytes`
  are modified in place by `AddToBuffer` and `FlushKey`.
  - `keyOrder` records the dict's insertion order.
  - `acked` records every acknowledgement call.
  - The invariant `Valid()` keeps the three tables in agreement.
  - The loops of `_flush_key` are the methods `BuildRowsJson`,
    `GroupByStream` and `PlanAcks`. Each is proved against a specification
    function (`ToJsonRow`, `StreamsInOrder`/`IdsOf`, `AckCalls`), and those
    functions' properties are proved as lemmas.
- `DataService` (`dataservice.dfy`): `str.strip`, the stream name,
  EnqueueBlog's validation and field map, the guards of
  UpdateBlog/DeleteBlog/BulkDelete/BulkUpdate.
- `Pipeline` (`pipeline.dfy`): the producer-to-consumer round trip. The map
  EnqueueBlog writes is the map the worker decodes.

The outside world enters only as parameters:

- Time is an integer, and the clock is a `now` parameter.
- `datetime.fromisoformat` is a parameter `parseIso: string -> Option<Time>`
  that returns `None` where the library raises.
- The outcome of the bulk insert is the input `insertSucceeds`.
- The rows that stored procedures return are inputs.
- The generated uuid and the current ISO time of EnqueueBlog are inputs.

## Model

| member | source | states |
|---|---|---|
| Blogs.ValuesClause | app/models/blogs.py:30-32 | the clause holds 7·n placeholders; it is empty exactly when n = 0; for n > 0 it is 30n−2 characters long and starts with `(` and ends with `)` |
| Blogs.RowGroupText | app/models/blogs.py:31 | one row group is exactly `(%s, %s, %s, %s, %s, %s, %s)` |
| Blogs.RowGroupShape | app/models/blogs.py:31 | one row group holds seven placeholders, is 28 characters long and is bracketed |
| Blogs.GroupsJoined | app/models/blogs.py:31 | n row groups joined by `", "` hold 7·n placeholders; the join is empty for n = 0 and bracketed otherwise |
| Blogs.BulkInsert | app/models/blogs.py:35-53 | no rows: no statement is executed and the count is 0. Otherwise the statement's clause is `ValuesClause(|rows|)`, there are exactly 7·|rows| parameters (as many as placeholders), and row i fills positions 7i..7i+6 in column order client id, author, created, updated, genre, location, content. The count is the driver's rowcount, or 0 when it reports none |
| Worker.StreamForGenre | app/worker/worker.py:45-47 | the stream name is the prefix `blogs:genre:` followed by the genre, which can be read back |
| Worker.StreamForGenreInjective | app/worker/worker.py:46-47 | distinct genres give distinct stream names |
| Worker.DecodeRow | app/worker/worker.py:69-89 | a present text field decodes to its own value and a missing one to "". A present client id decodes to `Some` of its value and a missing one to None. The creation time is the parsed timestamp when `parseIso` accepts it, and `now` when the field is missing or unparseable. The update time is `now` |
| Worker.SumBytesAtLeast | app/worker/worker.py:94-95 | the byte estimate of a list of items is at least 64 per item |
| Worker.BytesBound | app/worker/worker.py:94-95 | in agreeing tables, a key's byte count equals the sum of its items' estimates and is at least 64 × the item count |
| Worker.ToJsonRow | app/worker/worker.py:122-131 | the JSON form of a row sends an absent client id as "" and copies every other field unchanged |
| Worker.BuildRowsJson | app/worker/worker.py:120-131 | one JSON row per buffered item, in buffer order |
| Worker.GroupByStream | app/worker/worker.py:138-140 | the streams come in order of first appearance, and each group holds exactly that stream's ids in arrival order. A stream has a group exactly when it is listed |
| Worker.StreamsInOrderSpec | app/worker/worker.py:138-141 | the listed streams are distinct, and a stream is listed exactly when some buffered item came from it |
| Worker.AckCallsFor | app/worker/worker.py:141-145 | one acknowledgement call per stream, in order, each carrying that stream's ids |
| Worker.AckCallsCoverBuffer | app/worker/worker.py:138-145 | taken together, the acknowledged ids are exactly the buffered ids as a multiset: every id as often as it was buffered, no superset and no subset |
| Worker.AckCallsSpec | app/worker/worker.py:138-147 | the acknowledgement calls of a flush go to distinct streams, exactly the streams the items came from. Each call holds its stream's ids. All calls together hold exactly the buffered ids |
| Worker.PlanAcks | app/worker/worker.py:138-145 | the acknowledgement loop issues exactly `AckCalls(items)` |
| Worker.AppendKeepsTables | app/worker/worker.py:90-95 | appending an item under its own key, setting the first-arrival time only for a new key and adding the item's estimate keeps the tables in agreement |
| Worker.ResetKeepsTables | app/worker/worker.py:149-151 | emptying one key (list cleared, first-arrival time removed, bytes 0) keeps the tables in agreement |
| Worker.BlogWorker.constructor | app/worker/worker.py:41-43 | the worker starts with empty tables and no acknowledgements |
| Worker.BlogWorker.AddToBuffer | app/worker/worker.py:69-95 | the decoded item is appended at the end of key (genre, location), and every other key is unchanged. The first-arrival time is set only when the key is absent. The byte count grows by exactly the item's estimate. A key enters the iteration order only the first time it is seen. Nothing is acknowledged. The tables stay in agreement |
| Worker.BlogWorker.ShouldFlush | app/worker/worker.py:97-108 | false for an empty buffer. Otherwise true exactly when count ≥ `batchMaxCount`, or now − first arrival ≥ `batchMaxAgeMs`, or the byte sum ≥ `batchMaxBytes` |
| Worker.InOrderOfCons | app/worker/worker.py:177 | keys chosen in order from the tail of a list, with or without its head in front, stay in the order of the whole list |
| Worker.BlogWorker.DueAmong | app/worker/worker.py:177 | keeps exactly the keys of the list that should flush, each once if the list has no repeats, and any two of them in the order the list gives them |
| Worker.BlogWorker.KeysToFlush | app/worker/worker.py:177 | the keys selected for flushing are exactly the buffered keys that should flush, each once, and any two of them in the order of the table's insertion order `keyOrder` |
| Worker.BlogWorker.FlushKey | app/worker/worker.py:115-151 | an empty key is left alone: nothing is serialised, inserted, acknowledged or reset. Otherwise one JSON row per item is produced in order. If the insert raises, nothing is acknowledged and nothing is reset. If it succeeds, exactly `AckCalls(items)` is appended to the acknowledgement log, and then only this key is reset (list emptied, first-arrival time removed, bytes 0). Other keys and the key order are unchanged, and the tables stay in agreement |
| DataService.LeadingSpace | app/dataservice/server.py:65-67 | the count of leading whitespace characters: they are all whitespace and the next one is not |
| DataService.TrailingSpace | app/dataservice/server.py:65-67 | the count of trailing whitespace characters: they are all whitespace and the one before is not |
| DataService.Strip | app/dataservice/server.py:65-67 | `str.strip()` is a slice of the input with only whitespace cut on either side. The result is empty or starts and ends with non-whitespace |
| DataService.StripEmptyIffAllSpace | app/dataservice/server.py:65-71 | stripping yields "" exactly when the text is all whitespace |
| DataService.StripIdempotent | app/dataservice/server.py:65-67 | stripping twice equals stripping once |
| DataService.StreamForGenre | app/dataservice/server.py:59-61 | the stream name is `blogs:genre:` followed by the genre |
| DataService.StreamNamesAgree | app/dataservice/server.py:60-61 | the producer's stream name for a genre is the worker's (app/worker/worker.py:46-47) |
| DataService.StreamForGenreInjective | app/dataservice/server.py:60-61 | distinct genres are enqueued on distinct streams |
| DataService.EntryFields | app/dataservice/server.py:76-83 | the entry has exactly the six keys, each holding its value |
| DataService.EnqueueBlog | app/dataservice/server.py:63-83 | aborts with INVALID_ARGUMENT exactly when genre, location or author is blank or the content is empty. Otherwise the entry has exactly the six keys. It holds the trimmed author, genre and location and the content as sent, all non-empty. The client id is the request's, or the generated one when it is empty. The creation time is the request's, or the current one when it is empty. The target stream is that of the trimmed genre |
| DataService.CountColumn | app/dataservice/server.py:144 | the count is the column's value when the row and column are present, and 0 otherwise |
| DataService.FoundOrAbort | app/dataservice/server.py:145-146 | NOT_FOUND exactly when the count is 0; success otherwise |
| DataService.UpdateBlog | app/dataservice/server.py:143-147 | succeeds exactly when the procedure's row reports a non-zero `updated` count, otherwise NOT_FOUND |
| DataService.DeleteBlog | app/dataservice/server.py:154-158 | succeeds exactly when the procedure's row reports a non-zero `deleted` count, otherwise NOT_FOUND |
| DataService.BulkDelete | app/dataservice/server.py:160-171 | aborts with INVALID_ARGUMENT ("ids required") exactly when no id is given. Otherwise it returns the `deleted` count, zero included |
| DataService.BulkUpdate | app/dataservice/server.py:173-193 | aborts with INVALID_ARGUMENT exactly when no id is given (checked first, "ids required") or when genre, location and content are all empty ("no fields to update"). Otherwise the procedure gets the ids and the three fields, and the `updated` count is returned |
| Pipeline.EnqueueThenDecode | app/dataservice/server.py:74-83 | decoding an accepted entry with the worker's `_add_to_buffer` (app/worker/worker.py:70-90) gives the trimmed author, genre and location, the content as sent, and the chosen client id. The row is keyed by (trimmed genre, trimmed location) and was read from the worker's stream for that genre. Its creation time follows `parseIso` with the `now` fallback |
| Pipeline.AcceptedKeysAreTrimmed | app/dataservice/server.py:65-71 | the genre and location of every accepted entry, as decoded by the worker, are non-blank and already trimmed |

## Left out

- Redis I/O is not modelled: `xreadgroup`, `xadd`, `sadd`, `smembers`, `xgroup_create` in `ensure_groups` with its error-string matching, and `discover_streams`. `xack`/`xdel` are recorded as `AckCall(stream, ids)` entries in `acked`.
- The `run` loop as a whole (infinite loop, exception logging, `asyncio.sleep`) is left out. Only its flush selection at app/worker/worker.py:177 is modelled, as `KeysToFlush`.
- SQL text, stored procedures, `json.dumps` and the datetime helpers (`_iso_to_dt`, `_dt_to_iso`, `_now_iso`, `_format_dt`) are library or foreign calls. Times are abstract integers, and `fromisoformat` is the `parseIso` parameter.
- GetBlog and ListBlogs are not part of this model: GetBlog's NOT_FOUND on a missing row (app/dataservice/server.py:95-96), ListBlogs' defaults of `limit` 50 and `offset` 0 and its mapping of empty filters to no filter (app/dataservice/server.py:112-118), and the row-to-message copying of both.
- app/api/main.py, app/common/db.py, app/common/sp_check.py, app/common/redis_client.py and app/common/config.py are HTTP plumbing, client singletons and settings, and are not part of this model.
- asyncio and the gRPC server lifecycle are left out. The buffer is driven by one task, so the model is sequential.
- Worker.BlogWorker.AddToBuffer: uses one `now` for the fallback creation time, the update time and the first-arrival time. The source reads the clock twice (lines 79 and 80).
- Worker.BlogWorker.ShouldFlush: reads an absent key as an empty list. It does not model the empty list that the defaultdict lookup at line 98 inserts. The run loop only asks about keys that are already present.
- Worker.BlogWorker.ShouldFlush: the clock read at line 104 is the `now` parameter, shared by every key that `KeysToFlush` examines.
- Worker.BlogWorker.FlushKey: the insert's outcome is the input `insertSucceeds`. A failing acknowledgement is only logged in the source, so every attempted call is recorded whether or not it succeeded.
- DataService.EnqueueBlog: the `sadd` of the genre, the message id that `xadd` returns, the stream's `maxlen` trimming and the response message are not modelled.
- DataService.UpdateBlog: covers only the count rule. The conversion of `updated_at_iso` and the procedure's arguments are not modelled.
- DataService.BulkDelete and DataService.BulkUpdate: `json.dumps` of the id list is not modelled; the ids are passed on as a sequence.
- Blogs.BulkInsert: the driver's rowcount is an input.
- DataService.Strip: works on code points and uses the whitespace set of Python's `str.isspace`. There is no Unicode normalisation.
- The source has no claim of stale pending entries at startup, no retry with backoff of a failed bulk call (the buffer stays and is offered again on the next pass), no acknowledgement of malformed entries (decoding never fails), and no swap of a buffer under flush (the key's list is cleared after the flush). The model has none of these either.
- `ShouldFlush` checks count, then age, then bytes, as the source does (app/worker/worker.py:101-107). The result is their disjunction, so the order of the checks cannot be observed.

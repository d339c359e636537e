# million-rps todo service: a verified model of its core

million-rps is a todo service built for very high read throughput.

**Reads.** A list read is served cache-aside from Redis. It uses the key `todos:all` for the full list and `todos:limit:N` for the newest N. On a miss the handler reads from Postgres, answers, and caches the same bytes.

**Writes.** A write (create, update, delete) is not applied by the HTTP handler. The handler validates the request and builds a `TodoCommand`. It publishes the command to Kafka under the key `user:action` and answers 202. A consumer loop (the worker) then:
- decodes each command;
- applies it to the `todos` table (insert, owner-scoped merge-patch, owner-scoped delete);
- deletes `todos:all` after a successful apply;
- commits every message, failed ones included.

**Utilities.** Around this sit several small pieces:
- the configuration reader (`getEnv`, `getIntEnv`, `getSliceEnv` with its `splitTrim` and `trim`);
- the chunking step logger;
- the `.env` loader that the server and the seed script both run at start-up;
- the seed script, which inserts 10,000 todos in 20 multi-row statements.

**Modules.** The model has one module per Go package or file:

| module | Go source | form |
|---|---|---|
| `Wire` | shared | JSON documents as values, `Option`/`Result`, errors, timestamps |
| `Strconv` | Go's `strconv` | `Itoa`, `Atoi` (with the int64 clamp on overflow), `ParseBool` |
| `Text` | Go's `strings` | trimming by a character class, `Index`, splitting and joining |
| `Config` | internal/config/config.go | functions; `Trim`, `SplitTrim`, `GetSliceEnv` as loops; `ConfigHolder` memoises |
| `Logger` | pkg/logger/log.go | `StepLog` and its chunk loop as methods over a record sequence |
| `EnvFile` | cmd/main.go, scripts/seed/main.go | `ProcessEnv` class whose `vars` map the loop updates line by line |
| `Models` | internal/models/todo.go | `Todo`, `TodoCommand`; JSON encode/decode at document level |
| `Repository` | internal/repository/todos.go | `TodoTable` class over `rows: map<string, Todo>` |
| `Cache` | internal/cache/redis.go | `RedisCache` class over a key → entry map, on the Redis server's clock in milliseconds |
| `Queue` | internal/queue/kafka.go | `CommandQueue` class: lazy writer and outgoing message stream |
| `Worker` | internal/worker/worker.go | `Consumer` class: `HandleMessage`, and `Run` as a loop over deliveries |
| `Controller` | internal/controller/todos.go | request decisions as functions; `TodoHandlers` methods |
| `Seed` | scripts/seed/main.go | `BuildBatch` and `Run` loops over batches |

**Outside inputs become parameters.** These are the Redis, database and Kafka faults, `time.Now`, `uuid.New`, the process environment, the lines of the `.env` file, and the context being done. Every method is specified by a function over its old state and inputs. The properties the service promises are proved about those functions as lemmas.

**Where the code was followed.** In these places the code behaves in ways a reader might not expect:
- Invalidation deletes only `todos:all`. Every `todos:limit:N` view survives a write until its TTL runs out (`Cache.StaleLimitViewSurvives`).
- `strconv.Atoi` returns the largest int64 on overflow. The list handler ignores the error, so an over-long run of digits as `limit` selects the limit path with limit 9223372036854775807, not the full list (`Controller.DigitsTakeLimitPath`).
- The logger's `getIntEnv` keeps that clamped value too.
- The cache TTL is converted with `time.Duration(cfg.CacheTTL) * time.Second`, an int64 count of nanoseconds that wraps. Up to 9223372036 seconds the entry lives exactly the configured time (`Cache.ConfiguredTtl`). Past that the product wraps: `CACHE_TTL_SEC=18446744074` gives entries that live 290 ms, and `9223372037` gives entries that never expire (`Cache.OversizedTtlWraps`).
- `PublishTodoCommand`'s branch for a nil writer can never be taken, since `Producer` always builds one. It is not modelled.
- `loadEnvFile`'s test `key != ""` always holds once `idx > 0` has passed (`EnvFile.ParsedKey`).
- `loadEnvFile` discards the error of `os.Setenv`, which refuses a key or value holding a NUL character; such a line sets nothing and does not hold the key for later lines (`EnvFile.NulValueIgnored`).

## Model

| member | source | states |
|---|---|---|
| Wire.TimeText | internal/models/todo.go:12-13 | the text of a time value has the RFC 3339 shape YYYY-MM-DDThh:mm:ssZ, 20 characters with its separators in place |
| Wire.EpochText | internal/models/todo.go:12-13 | the Unix epoch renders as 1970-01-01T00:00:00Z |
| Wire.ZeroTimeText | internal/models/todo.go:12-13 | Go's zero time renders as 0001-01-01T00:00:00Z |
| Wire.MinJsonTimeText | internal/models/todo.go:12-13 | the first writable instant renders as 0000-01-01T00:00:00Z |
| Wire.MaxJsonTimeText | internal/models/todo.go:12-13 | the last writable instant renders as 9999-12-31T23:59:59Z |
| Wire.Parse | internal/worker/worker.go:67-69 | decoding fails with a syntax error exactly when the bytes are not a JSON document, and otherwise yields that document |
| Strconv.NatToDecimal | scripts/seed/main.go:46-47 | the %d rendering of a natural number is a non-empty digit string, one digit long exactly below 10, with no leading zero |
| Strconv.NatToDecimalInjective | scripts/seed/main.go:46-47 | two numbers with the same decimal rendering are equal |
| Strconv.Itoa | internal/cache/redis.go:91-93 | strconv.Itoa starts with '-' exactly for negative numbers and is all digits otherwise |
| Strconv.ItoaInjective | internal/cache/redis.go:91-98 | distinct integers render to distinct strings |
| Strconv.ScanDigits | internal/config/config.go:64 | the base-10 digit loop accepts only all-digit text, and any value it yields fits in uint64 |
| Strconv.Atoi | internal/config/config.go:64 | the result is always an int64; an empty text, a lone sign, or a digit scan that stops on a non-digit is a syntax error giving (0, false); a scan past the uint64 range is a range error giving the bound on the sign's side; success needs a non-empty all-digit body |
| Strconv.SyntaxErrorGivesZero | internal/controller/todos.go:28 | any text with a non-digit among the first twenty characters after its sign parses to (0, false) |
| Strconv.AtoiItoa | internal/config/config.go:62-69 | parsing the decimal rendering of any int64 gives back that number, with no error |
| Strconv.ParseBool | pkg/logger/log.go:144 | true exactly for 1, t, T, TRUE, true, True; accepted false exactly for 0, f, F, FALSE, false, False; false for anything else |
| Text.TrimBySlice | internal/config/config.go:100-109 | the trimmed text is the slice between the leading and trailing runs of cut characters, and those runs are made only of such characters |
| Text.TrimByKeeps | internal/config/config.go:100-109 | text without a cut character at either end is its own trim |
| Text.TrimByNonEmpty | internal/config/config.go:100-109 | text starting with a kept character trims to non-empty text with that first character |
| Text.TrimByIdempotent | internal/config/config.go:100-109 | trimming twice equals trimming once |
| Text.Find | cmd/main.go:89 | strings.Index: the result is an occurrence with none earlier, or there is no occurrence at all |
| Text.Split | internal/config/config.go:86-98 | splitting at a non-empty separator yields at least one piece |
| Text.SplitTiles | internal/config/config.go:86-98 | each piece but the last runs from the previous cut up to the leftmost match of the separator after it, with no match starting inside it; the last runs to the end of the text |
| Text.TilesUnique | internal/config/config.go:86-98 | two lists of pieces cut that way from the same place are equal |
| Text.SplitIsTheTiling | internal/config/config.go:86-98 | any list of pieces cut at the leftmost match after each cut is the split, so the cut points determine it |
| Text.JoinSplit | internal/config/config.go:86-98 | joining the pieces with the separator rebuilds the input exactly |
| Text.SplitPiecesAreFree | internal/config/config.go:86-98 | no piece contains the separator |
| Config.GetEnv | internal/config/config.go:55-60 | the variable when non-empty, else the default; a non-empty default gives a non-empty result |
| Config.GetIntEnv | internal/config/config.go:62-69 | the default when the variable is empty or does not parse; otherwise exactly the parsed value, whatever its spelling ("+5", "007", "-0") |
| Config.GetIntEnvReadsBack | internal/config/config.go:62-69 | any int64 that is set, zero and negatives included, is returned as itself |
| Config.Trim | internal/config/config.go:100-109 | the two index loops return the input without leading and trailing spaces and tabs |
| Config.TrimAll | internal/config/config.go:91-96 | one trimmed piece per piece |
| Config.TrimAllPieces | internal/config/config.go:91-96 | piece k of the output is piece k of the input, trimmed |
| Config.SplitTrim | internal/config/config.go:86-98 | the loop returns the pieces between the separator matches, each trimmed |
| Config.SplitTrimJoin | internal/config/config.go:86-98 | when no piece carries blanks at its ends, joining the output with the separator reproduces the input |
| Config.NonEmpty | internal/config/config.go:74-78 | every non-empty piece is kept as often as it occurs and no empty one (same multiset minus the empty strings) |
| Config.NonEmptyAppend | internal/config/config.go:74-78 | the order is kept: the non-empty pieces of a concatenation are those of the first part followed by those of the second |
| Config.NonEmptyNone | internal/config/config.go:74-81 | nothing is kept exactly when every piece is empty |
| Config.SliceEnv | internal/config/config.go:71-84 | the default alone when the variable is unset or every trimmed piece is empty; otherwise exactly the non-empty trimmed pieces, in order |
| Config.GetSliceEnv | internal/config/config.go:71-84 | the loop's result is the non-empty trimmed comma pieces, or [default] when none remain |
| Config.Load | internal/config/config.go:31-48 | the configuration always has a port, a Redis URL, a topic and at least one broker |
| Config.EmptyEnvironmentDefaults | internal/config/config.go:33-45 | with nothing set every field takes its documented default |
| Config.ConfigHolder.constructor | internal/config/config.go:25-28 | no configuration is built before the first call |
| Config.ConfigHolder.Get | internal/config/config.go:31-48 | the first call builds the configuration from the environment it sees, and every later call returns that same value whatever the environment is then |
| Logger.GetBoolEnv | pkg/logger/log.go:139-146 | the default when empty; otherwise true exactly for ParseBool's true spellings, so unparsable text is false |
| Logger.GetIntEnv | pkg/logger/log.go:148-158 | the default when empty, unparsable or non-positive, else the parsed value; a positive default gives a positive result |
| Logger.ChunkLengthPositive | pkg/logger/log.go:148-158 | the chunk length the step logger uses is always positive |
| Logger.ChunkCount | pkg/logger/log.go:60-64 | the count is zero exactly for an empty message, and otherwise is ceil(length / size): (c-1)·size < length ≤ c·size |
| Logger.ChunkCountUnique | pkg/logger/log.go:60-64 | no other count satisfies that bound |
| Logger.ChunksCount | pkg/logger/log.go:60-64 | the message splits into exactly the counted number of chunks |
| Logger.ChunkAt | pkg/logger/log.go:72-76 | chunk i is message[i·size .. min((i+1)·size, len)], and its start lies inside the message |
| Logger.ChunkLengths | pkg/logger/log.go:71-76 | every chunk is non-empty and at most size long, and all but the last are exactly size long |
| Logger.ChunksConcat | pkg/logger/log.go:71-76 | the chunks concatenate, in order, to the whole message |
| Logger.LogChunk | pkg/logger/log.go:81-93 | the level is Debug, Info or Error exactly for "debug", "info", "error", with text prefix + " :- " + message; any other level is a Warn record "Unhandled log level: …. Message: …" |
| Logger.UnknownLevelDropsLabel | pkg/logger/log.go:90-91 | under an unknown level the prefix, and so the chunk label, does not reach the record |
| Logger.LabelsDistinct | pkg/logger/log.go:77 | the labels "prefix [n]" of different chunks differ |
| Logger.Labelled | pkg/logger/log.go:71-78 | n chunk records for n chunks |
| Logger.LabelledAt | pkg/logger/log.go:77 | record k is chunk k logged under label k + 1 |
| Logger.LogChunks | pkg/logger/log.go:71-78 | the loop emits, in order, one record per chunk with the chunk's slice and label |
| Logger.StepLog | pkg/logger/log.go:56-79 | with step logging off or at most one chunk, exactly one record holds the whole message; otherwise record i is chunk i under label "prefix [i+1]", one per chunk |
| EnvFile.Unquote | cmd/main.go:95-99 | never lengthens the value, and a value not wrapped in one kind of quote is unchanged |
| EnvFile.QuotesStripped | cmd/main.go:95-99 | a value wrapped in one pair of " or ' quotes loses them and keeps its inside |
| EnvFile.ParseLines | cmd/main.go:84-103 | one reading per line of the file |
| EnvFile.BlankAndCommentLinesSkipped | cmd/main.go:85-88 | a blank line, or one starting with # after trimming, sets nothing |
| EnvFile.LinesWithoutKeySkipped | cmd/main.go:89-92 | a line with no "=", or whose trimmed text starts with "=", sets nothing |
| EnvFile.KeyBeforeFirstEquals | cmd/main.go:89-93 | the trimmed text before the first "=" of a trimmed line is non-empty and contains no "=" |
| EnvFile.ParsedKey | cmd/main.go:93-102 | every key a line sets is non-empty and free of "=" and of surrounding white space, so the key != "" test never fails |
| EnvFile.LineRoundTrip | scripts/seed/main.go:73-82 | the line KEY=VALUE, with a key free of "=" and white space and a plain value, is read back as exactly (KEY, VALUE), extra "=" kept in the value |
| EnvFile.ProcessEnv.constructor | cmd/main.go:77 | the loader starts from the process environment as given |
| EnvFile.ProcessEnv.LoadEnvFile | cmd/main.go:77-104 | a missing file leaves the environment unchanged; otherwise the loop leaves the environment the lines determine, applied in file order, where a pair os.Setenv refuses (a NUL in key or value) sets nothing |
| EnvFile.FirstNonEmptyWins | scripts/seed/main.go:88-90 | a variable that already holds a non-empty value is never overwritten by any line |
| EnvFile.EmptyValueDoesNotHold | cmd/main.go:100-102 | after KEY= sets an empty value, a later KEY=value line takes effect when its key and value are free of NUL, and leaves the key empty otherwise |
| EnvFile.NulValueIgnored | cmd/main.go:100-102 | a line whose value holds a NUL is refused by os.Setenv, the discarded error leaves the environment as it was, and a later valid line for the key still sets it |
| Models.EncodeCommand | internal/models/todo.go:17-25 | marshalling fails only when the request time cannot be written, and otherwise gives a non-empty JSON object |
| Models.DecodeString | internal/models/todo.go:18-21 | any string member sets the field to its text, time text included; null keeps it; anything else is a type error |
| Models.DecodeBool | internal/models/todo.go:10 | a boolean member sets the field, null keeps it, anything else is a type error |
| Models.DecodeBoolPtr | internal/models/todo.go:22 | a boolean member sets the pointer, null makes it nil, anything else is a type error |
| Models.DecodeTime | internal/models/todo.go:24 | a time member sets the field, null keeps it, anything else is a type error |
| Models.DecodeCommand | internal/models/todo.go:17-25 | non-JSON is a syntax error, null gives the zero command, and JSON that is neither an object nor null is a type error |
| Models.CommandRoundTrip | internal/models/todo.go:17-25 | decoding an encoded command gives back the same command |
| Models.CommandEncodingInjective | internal/models/todo.go:17-25 | two different commands never share a payload |
| Models.CommandKeys | internal/models/todo.go:18-24 | the wire form's member names are action, id, user_id, requested_at, plus each optional member that is set |
| Models.CommandWireFields | internal/models/todo.go:18-24 | action, id, user_id and requested_at are always present; title, description and completed appear exactly when non-empty or non-nil |
| Models.ExplicitFalseSurvives | internal/models/todo.go:22 | an explicit completed=false is encoded, decodes back, and is distinct from an absent value |
| Models.AbsentTitleDecodesEmpty | internal/models/todo.go:20 | a payload without a title leaves the title as it was, that is empty, just as an empty title does |
| Models.TodoDocs | internal/models/todo.go:6-14 | one JSON element per row, in order |
| Models.EncodeTodos | internal/models/todo.go:6-14 | marshalling a list fails exactly when some row's time cannot be written; otherwise it is a non-empty document, null for the empty list |
| Models.DecodeTodoElements | internal/models/todo.go:6-14 | decoding an array gives one row per element |
| Models.DecodeTodos | internal/models/todo.go:6-14 | non-JSON is a syntax error, and null gives the empty list |
| Models.TodoRoundTrip | internal/models/todo.go:6-14 | a stored row read back from its wire form is the same row |
| Models.TodosRoundTrip | internal/models/todo.go:6-14 | what is cached for a list decodes back to that list |
| Repository.InsertNewestFirst | internal/repository/todos.go:20-35 | placing a row keeps the multiset of rows and adds exactly that row |
| Repository.InsertKeepsNewestFirst | internal/repository/todos.go:20-21 | placing a row keeps the list ordered by created_at descending |
| Repository.TodoTable.constructor | internal/repository/todos.go:16 | the table starts with the given rows, each under its own id |
| Repository.TodoTable.GetAll | internal/repository/todos.go:15-37 | no handle gives ErrNoRows and no rows; a query or scan error is returned with no rows; otherwise every stored row is returned exactly once, newest first |
| Repository.TodoTable.Create | internal/repository/todos.go:40-60 | the row is stamped (id only if empty, both timestamps now) and inserted as InsertOutcome says; keying by id is preserved |
| Repository.TodoTable.Update | internal/repository/todos.go:63-81 | the table and error are the merge-patch outcome, scoped to the (id, user) pair |
| Repository.TodoTable.Delete | internal/repository/todos.go:84-95 | the table and error are the owner-scoped delete outcome |
| Repository.NoHandleChangesNothing | internal/repository/todos.go:41-44 | without a database handle insert, update and delete all return ErrNoRows and change nothing |
| Repository.StampFields | internal/repository/todos.go:45-50 | a fresh id only when the id is empty; created_at = updated_at = now; all other fields kept |
| Repository.InsertEffect | internal/repository/todos.go:51-59 | an insert succeeds exactly when there is no fault and the id is new, adding exactly that row and keeping all others; a failed insert changes nothing |
| Repository.RedeliveredInsertFails | internal/repository/todos.go:51-58 | inserting the same row a second time fails on the primary key and changes nothing |
| Repository.EmptyPatchIsNoOp | internal/repository/todos.go:69-80 | an update with empty title, empty description and nil completed returns nil and changes nothing, not even updated_at |
| Repository.MergePatchEffect | internal/repository/todos.go:70-73 | on the caller's own row, non-empty text replaces, empty text keeps, a set completed replaces, and updated_at becomes now; id, owner and created_at are kept and no other row changes |
| Repository.CompletedOnlyPatchKeepsText | internal/repository/todos.go:70-73 | changing only completed keeps title and description |
| Repository.ForeignRowUntouched | internal/repository/todos.go:72 | update or delete on a missing id or another user's row returns nil and changes nothing |
| Repository.DeleteIdempotent | internal/repository/todos.go:89-94 | the first delete removes at most the owned row, and a second delete of the same pair returns nil and changes nothing |
| Repository.OutcomesKeepKeying | internal/repository/todos.go:51-94 | every statement keeps each row stored under its own id |
| Cache.CacheKey | internal/cache/redis.go:145-147 | the per-item key is "todo:" followed by the id |
| Cache.LimitKeysDistinct | internal/cache/redis.go:18-21 | distinct limits give distinct keys, and no limit key is todos:all |
| Cache.CacheKeyIsNoListKey | internal/cache/redis.go:145-147 | a per-item key is never a list key |
| Cache.RedisCache.constructor | internal/cache/redis.go:29-50 | the client's availability and TTL are fixed, and the store starts empty |
| Cache.RedisCache.GetRaw | internal/cache/redis.go:53-63 | a hit exactly when there is a client, no Redis error and a live entry, and then the stored bytes |
| Cache.RedisCache.SetRaw | internal/cache/redis.go:65-78 | empty bytes, a missing client or a failed SET leave the store; otherwise the bytes replace the entry under the key, expiring as the wrapped int64 duration of the configured TTL dictates |
| Cache.RedisCache.GetTodos | internal/cache/redis.go:101-111 | a list exactly when the raw read hits and the bytes decode, and then the decoded list; undecodable bytes are a miss |
| Cache.RedisCache.SetTodos | internal/cache/redis.go:114-126 | a list that fails to encode writes nothing; otherwise the encoding is stored under todos:all, expiring as the wrapped int64 duration of the configured TTL dictates |
| Cache.RedisCache.InvalidateTodos | internal/cache/redis.go:136-142 | deletes todos:all when there is a client and DEL succeeds, and touches nothing else |
| Cache.WrapInt64 | internal/cache/redis.go:76 | int64 arithmetic: the result lies in the int64 range, differs from the exact value by a multiple of 2^64, and is the exact value when that fits |
| Cache.Expiry | internal/cache/redis.go:77 | go-redis sends an expiry exactly for a positive duration, of at least 1 ms, and the duration in whole milliseconds |
| Cache.ConfiguredTtl | internal/cache/redis.go:76-77 | a TTL of up to 9223372036 seconds lives exactly that many seconds, and a non-positive one never expires |
| Cache.OversizedTtlWraps | internal/cache/redis.go:124-125 | 18446744074 seconds wraps to a 290 ms expiry, and 9223372037 seconds to none |
| Cache.HitReturnsStoredBytes | internal/cache/redis.go:58-62 | a read within the TTL returns exactly the bytes last stored under the key |
| Cache.EntryExpires | internal/cache/redis.go:75-77 | an entry with an expiry is gone once that expiry has passed |
| Cache.StoreIsLocal | internal/cache/redis.go:65-78 | storing under one key leaves every other key's reading unchanged |
| Cache.InvalidationScope | internal/cache/redis.go:136-142 | after invalidation todos:all misses, while every todos:limit:N and per-item key reads as before |
| Cache.StaleLimitViewSurvives | internal/cache/redis.go:136-142 | a limit view cached before a write is still served after the worker's invalidation, until its TTL |
| Queue.MessageKeyInjective | internal/queue/kafka.go:85 | with action names of equal length, equal keys mean the same user and the same action |
| Queue.ActionsOfOneUserSplit | internal/queue/kafka.go:85 | one user's different actions get different keys, so they land in different key logs |
| Queue.KeyLog | internal/queue/kafka.go:83-89 | a key's log holds no more messages than the stream |
| Queue.KeyLogSnoc | internal/queue/kafka.go:83-89 | appending a message extends its own key's log at the end and no other key's log |
| Queue.EnsureTopic | internal/queue/kafka.go:18-50 | no request without brokers; otherwise a topic creation via the first broker with the configured topic and partitions and replication factor 1 |
| Queue.CommandQueue.constructor | internal/queue/kafka.go:52-55 | no writer and no messages before first use |
| Queue.CommandQueue.Producer | internal/queue/kafka.go:58-73 | builds the writer once with the configured brokers and topic; every later call returns that same writer |
| Queue.CommandQueue.PublishTodoCommand | internal/queue/kafka.go:76-90 | the writer is built with kafka.go's options if there was none, and kept otherwise; an encoding error is returned with nothing appended; otherwise the writer's result is returned, and on success exactly one message (key user:action, value the encoding) is appended |
| Queue.PublishedCommandReadsBack | internal/queue/kafka.go:81-89 | the last entry of a published command's key log decodes back to the command |
| Worker.UntilCancelled | internal/worker/worker.go:44-48 | the loop consumes deliveries up to, not including, the first fetch error seen after cancellation |
| Worker.FetchedCount | internal/worker/worker.go:44-52 | fetched messages are at most the deliveries |
| Worker.Consumer.constructor | internal/worker/worker.go:41 | the counter starts at zero with nothing committed |
| Worker.Consumer.HandleMessage | internal/worker/worker.go:65-97 | the new table, cache and error are those of Handle: decode, dispatch on the action, apply, then invalidate only after a successful apply |
| Worker.Consumer.Run | internal/worker/worker.go:20-63 | with no brokers nothing changes; otherwise the state is the replay of every delivery before cancellation |
| Worker.UndecodablePayloadChangesNothing | internal/worker/worker.go:66-69 | a payload that does not decode is an error and changes neither table nor cache |
| Worker.CreateCarriesCommandFields | internal/worker/worker.go:71-83 | create inserts the command's id, title, description and user; completed is the command's value when present and false when absent |
| Worker.UpdateDeleteUseCommandPair | internal/worker/worker.go:84-91 | update and delete reach the repository with exactly the command's (id, user) and fields |
| Worker.UnknownActionIgnored | internal/worker/worker.go:92-93 | an unknown action succeeds, changes nothing and does not invalidate |
| Worker.InvalidatesIffApplied | internal/worker/worker.go:81-95 | todos:all is deleted exactly when the action is create, update or delete and the repository returned no error; nothing else in the cache changes |
| Worker.NoOpUpdateStillInvalidates | internal/worker/worker.go:84-95 | an update that matches no row still succeeds and still deletes todos:all |
| Worker.RedeliveredCreateFails | internal/worker/worker.go:71-83 | a redelivered create fails on the primary key and changes nothing further |
| Worker.CommitsEveryMessage | internal/worker/worker.go:52-60 | the committed offsets are those of every fetched message whose commit succeeded, whatever the handling did |
| Worker.ProcessedBounded | internal/worker/worker.go:52-61 | the counter never falls and grows by at most one per fetched message |
| Worker.StepCountsSuccessOnly | internal/worker/worker.go:52-61 | a message is counted exactly when its handling succeeds, even if its commit then fails; a failed one is still committed |
| Worker.PoisonMessageSkipped | internal/worker/worker.go:52-56 | an undecodable message is committed and changes nothing else |
| Worker.FetchErrorChangesNothing | internal/worker/worker.go:44-51 | a fetch error commits nothing and changes nothing |
| Controller.Status | internal/controller/todos.go:136-141 | every written response has an HTTP status; 200 only for a list and 202 only for an accepted write |
| Controller.FailureResponse | internal/controller/todos.go:43-50 | nothing is written when the request's context is done or the error is a cancellation or deadline, and 500 otherwise |
| Controller.LimitParsing | internal/controller/todos.go:28-30 | a missing or empty limit, and every limit strconv.Atoi rejects with a syntax error, is 0 and takes the full-list path; a rendered int64 limit reads back as itself, and a non-positive one takes the full-list path |
| Controller.NonNumericLimitListsAll | internal/controller/todos.go:28-30 | a limit with a non-digit among its first twenty characters after the sign, such as "10abc", "1.5" or "+x", lists everything |
| Controller.DigitsTakeLimitPath | internal/controller/todos.go:28-30 | any digit run not starting with 0 takes the limit path, and one past the int64 range becomes the largest int64 |
| Controller.ShapeKeysSeparate | internal/controller/todos.go:30-35 | every non-positive limit uses todos:all, and positive limits have distinct keys of their own |
| Controller.MissThenHit | internal/controller/todos.go:51-53 | after a fault-free miss caches the served bytes under the shape key, the next read within the TTL returns exactly those bytes |
| Controller.BindBody | internal/controller/todos.go:119-126 | a body held as unparsable bytes and any binding failure are an invalid request, null binds the empty body, and create's body never carries completed |
| Controller.WritesNeedUser | internal/controller/todos.go:113-118 | every write without an authenticated user is rejected with 401 |
| Controller.MissingFieldsRejected | internal/controller/todos.go:153-157 | update and delete without an id, and create without a title, are rejected with 400 |
| Controller.CreateCommandShape | internal/controller/todos.go:127-135 | a published create carries the fresh id, the non-empty bound title and description, the user, the request time and no completed value |
| Controller.DeleteCommandShape | internal/controller/todos.go:198-203 | a published delete carries only action, id, user_id and requested_at on the wire |
| Controller.WellFormedCreatePublishes | internal/controller/todos.go:111-135 | a body with a title and a description yields exactly the expected create command |
| Controller.TimeTextTitlePublishes | internal/controller/todos.go:119-135 | a create whose title reads as a timestamp is published with that text as its title |
| Controller.UpdateKeepsExplicitFalse | internal/controller/todos.go:158-175 | an update body's completed=false reaches the command as an explicit false |
| Controller.CreatedTodosStartOpen | internal/controller/todos.go:127-135 | a todo created through the API reaches the worker with completed false, its fresh id and its user |
| Controller.TodoHandlers.constructor | internal/controller/todos.go:26 | the handlers share the given table, cache and queue |
| Controller.TodoHandlers.GetTodos | internal/controller/todos.go:26-79 | a hit answers the cached bytes and changes nothing; a miss answers the encoding of the fetched list (every row once, newest first) and caches those bytes under the same key; a failed fetch or encoding caches nothing |
| Controller.TodoHandlers.Answer | internal/controller/todos.go:136-141 | a rejection publishes nothing; a decided command gives 202 with its id exactly when publishing succeeded, appending that one message, and 503 with nothing appended otherwise |
| Controller.TodoHandlers.CreateTodo | internal/controller/todos.go:111-142 | 401 or 400 publish nothing; otherwise 202 with the fresh id exactly when the create command was appended under user:create, else 503 |
| Controller.TodoHandlers.UpdateTodo | internal/controller/todos.go:145-182 | 401 or 400 publish nothing; otherwise 202 with the id exactly when the update command was appended under user:update, else 503 |
| Controller.TodoHandlers.DeleteTodo | internal/controller/todos.go:185-210 | 401 or 400 publish nothing; otherwise 202 with the id exactly when the delete command was appended under user:delete, else 503 |
| Seed.Placeholders | scripts/seed/main.go:42-43 | n placeholder groups for n rows |
| Seed.PlaceholdersAt | scripts/seed/main.go:42-43 | group i is ($5i+1, …, $5i+5) |
| Seed.ParametersConsecutive | scripts/seed/main.go:40-43 | the parameters of a batch are numbered 1 to 5·batchSize consecutively, in order, each once |
| Seed.BatchArgs | scripts/seed/main.go:44-50 | five arguments per row |
| Seed.BatchArgsLayout | scripts/seed/main.go:44-50 | row i's arguments sit at positions 5i to 5i+4: id, "Todo n", "Description for todo n", false, "seed-user" |
| Seed.PlaceholderBindsRow | scripts/seed/main.go:42-50 | parameter $p of row i's group is bound to the matching argument of row i |
| Seed.BuildBatch | scripts/seed/main.go:38-51 | the inner loop builds exactly batchSize placeholder groups and 5·batchSize arguments, row by row |
| Seed.RowNumbersCover | scripts/seed/main.go:37-41 | every row number from 1 to 10,000 is given to some row of some batch |
| Seed.RowNumbersDistinct | scripts/seed/main.go:41 | two rows with the same number are the same row of the same batch |
| Seed.TitlesDistinct | scripts/seed/main.go:46-47 | rows with different numbers get different titles and descriptions |
| Seed.FirstFailure | scripts/seed/main.go:54-58 | the index of the first failing statement, or the count when none fails |
| Seed.Statements | scripts/seed/main.go:37-58 | one statement per completed batch |
| Seed.Run | scripts/seed/main.go:37-60 | the batches run in order; the statements accepted are those before the first failure, and the run fails exactly when some statement fails |
| Seed.AllBatchesInsertTotal | scripts/seed/main.go:32-37 | with no failure all 20 batches run and insert exactly 10,000 rows |

## Left out

- JSON byte syntax is not modelled. Documents are trees, and bytes are either a document or opaque unparsable bytes. Go's case-insensitive matching of member names and numbers are not modelled either. Timestamps are integer seconds in UTC, written as `TimeText` renders them, and one counts as writable when its year is in 0..9999.
- Controller.BindBody: gin's binder (`json.NewDecoder(body).Decode`) reads only the first JSON value of a request body and ignores any bytes after it, so a body such as `{"title":"a"} xyz` binds as `{"title":"a"}` and the handler publishes and answers 202. The model has no bytes around a document, so it can only represent such a body as `Unparsable`, which it answers with 400 and publishes nothing. The worker's `json.Unmarshal` does reject trailing bytes, and the model is exact there.
- Concurrency is not modelled: singleflight coalescing, the goroutine that writes the cache after a miss, the worker goroutine, and the atomic counter. Each read miss is one sequential fetch followed by the cache write. Each `sync.Once` is a field that the first call sets (`ConfigHolder.cfg`, `CommandQueue.writer`).
- `repository.GetRange` is not part of this model. Its result on the limit path is an input (`ReadEnv.range`), and nothing is claimed about its order or offset.
- Kafka delivery is not modelled: asynchronous broker acknowledgement, LeastBytes partitioning, consumer-group assignment and redelivery timing. The outgoing stream and per-key logs are sequences, and a fetched message's commit failure is an input.
- Queue.EnsureTopic: dialling the broker and looking up the controller are network steps. Their failures only log and return, so the model states the request that would be sent and nothing more.
- Queue.CommandQueue.PublishTodoCommand: the `w == nil` branch is not modelled, because `Producer` always sets the writer.
- `Topic`, `Brokers`, `SetTodosAsync`, `GetRawTodos`, `SetRawTodosAsync`, `GetRawTodosLimit` and `SetRawTodosLimitAsync` are one-line wrappers. They appear as `GetRaw`/`SetRaw` calls with the corresponding key.
- The Redis client construction (URL parsing, pool options, ping) is reduced to the flag `available`.
- Repository.TodoTable.GetAll: `rows.Err()` after a partial scan is folded into the single fault input. Partial row lists are not modelled.
- Outside the core: JWT middleware, routing, `Health`/`Ready`, pool setup and schema DDL, and server start-up and shutdown. Logging calls other than the step logger are omitted, as are slog's output format and `fmt.Sprint` of the logged arguments. The model receives the message as a string.
- Logger.StepLog: Go slices the message by bytes, so a chunk boundary can split a multi-byte UTF-8 character. Here the message is a sequence of characters. The product (i+1)·logLength is computed without the int64 wrap-around; it cannot wrap while the chunk count is above one.
- EnvFile.ProcessEnv.LoadEnvFile: the file is given as its lines. bufio.Scanner's stripping of a trailing carriage return is not modelled, and neither is its stop at a line over 64 KiB. os.Setenv's refusals are those of Unix (`EnvFile.SetenvAccepts`); other platforms' rules are not modelled.
- Config.SplitTrim requires a non-empty separator, because Go's loop never ends for an empty one. The only caller passes ",".
- Seed.Run: `uuid.New` ids and statement failures are inputs. The database connection, the schema step, the progress output and `time.Since` are not modelled. `os.Exit(1)` is modelled as returning with `failed` set.
- Models.DecodeTime: a time field accepts a time only in the canonical form TimeText writes (UTC, whole seconds), represented as `JTime`. Other RFC 3339 spellings (offsets, fractional seconds) are `JString` documents and are rejected, since the model does not parse time text.
- Strconv.Atoi: leading "+" and "-" signs and the int64 clamp are modelled. Underscores and other bases do not apply to `Atoi` and are not modelled.

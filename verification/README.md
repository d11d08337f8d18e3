# Task API core, modelled in Dafny

A model of the core of a small Node.js HTTP API for "task" records
(`title`, `description`, `completed_at`, `created_at`, `updated_at`, keyed
by a UUID `id`):

- the five request handlers of `src/routes.js` (list, create, edit,
  delete, complete), each a pure function from the table and the request
  input to a status code and the new table;
- the CSV import transform of `src/server.js`, which turns each chunk of an
  uploaded body into the `{title, description}` bodies it posts to the
  create endpoint;
- the request dispatch of `src/server.js`: the import bypass, first-match
  routing in declaration order, and 404 when nothing matches.

The table is an immutable `seq<Task>`. The clock reading (`now`, already
an ISO-8601 string) and the id from `randomUUID` are parameters of the
handlers. The datastore module is not part of this model; its operations
are given the meaning the handlers rely on:

- `insert` appends;
- `selectFirstOrDefault({id})` returns the first record whose `id` is equal;
- `update(id, fields)` overwrites the fields of that record;
- `delete(id)` removes that record.

The route-pattern compiler and the query-string decoder are also not part of
this model, and neither is the JSON body middleware. A compiled route pattern is the
abstract `Server.Matcher` parameter and the decoder the abstract `decode`
parameter. The parsed body is a small `Schema.Json` value.

Files and modules:

| file | module | what |
|---|---|---|
| `search.dfy` | `Search` | `Option`, first-match search (`find` / `findIndex`) |
| `text.dfy` | `Text` | `split` on one character, `trim`, with their laws |
| `schema.dfy` | `Schema` | request body, the `{title, description}` and `{id: uuid}` checks |
| `store.dfy` | `Store` | `Task`, the table and the four datastore operations |
| `routes.dfy` | `Routes` | the five handlers and the laws that relate them |
| `csv_import.dfy` | `CsvImport` | chunk → payloads of the CSV transform |
| `server.dfy` | `Server` | route table, dispatch, the whole request callback |

Behaviour worth knowing:

- Title and description may be empty strings: the body schema is
  `z.string()`, which accepts `""`.
- The CSV line `,` is not skipped. It splits into two empty fields and
  becomes the payload `("", "")`. So `title,description\nA,B\n,\nC,D,E\n`
  posts two bodies: `A,B` and `("", "")`.
- The transform does not skip only a chunk's first line. It skips every
  line equal to that first line.
- The record fields `completed_at`, `created_at` and `updated_at` are
  named `completedAt`, `createdAt` and `updatedAt` in the model.

## Model

| member | source | states |
|---|---|---|
| Text.Split | src/server.js:11 | `split` on one character: at least one piece, no piece contains the separator, and joining the pieces with it gives the input back |
| Text.SplitJoin | src/server.js:21 | splitting undoes joining: separator-free pieces are recovered exactly (the inverse direction of the round trip) |
| Text.SplitCount | src/server.js:21-22 | `split` gives one more piece than there are separators, so "exactly two fields" means "exactly one comma" |
| Text.SplitOnce | src/server.js:21-27 | with one comma at index k, the two fields are the text before and after k |
| CsvImport.SingleCommaFields | src/server.js:21-26 | when a line has exactly one comma, `row.split(",")` gives the text before it and the text after it |
| Text.TrimStart | src/server.js:18 | the result is a suffix; all that was dropped is white space; it does not start with white space |
| Text.TrimEnd | src/server.js:18 | the result is a prefix; all that was dropped is white space; it does not end with white space |
| Text.Trim | src/server.js:18 | the result is empty exactly when every character is white space, and otherwise starts and ends with a non-white-space character |
| Text.TrimIsTheInnerSlice | src/server.js:25-26 | `trim` returns exactly the slice that has only white space outside it and no white space at its ends |
| Schema.ParseTaskBody | src/routes.js:47-58 | a body passes exactly when it is an object whose `title` and `description` are strings (empty allowed), and yields those two strings |
| Schema.ToJson | src/server.js:24-27 | the `JSON.stringify` of a payload is an object with exactly `title` and `description`, which passes the body schema and yields the payload back |
| Schema.ParseIdParam | src/routes.js:80-88 | the `id` parameter passes exactly when present and a UUID, and yields it unchanged |
| Store.IndexOf | src/routes.js:103 | the first position with the id: it holds the id, no earlier record does, and there is none exactly when the id is absent |
| Search.First | src/server.js:61-63 | `find` in declaration order: the index found satisfies the test, no earlier element does, and there is none exactly when no element does |
| Store.SelectFirst | src/routes.js:103 | `selectFirstOrDefault({id})` finds a record exactly when the id is present; the record carries that id; with unique ids it is the record with that id |
| Store.Insert | src/routes.js:70 | the old table is a prefix of the new one, and the new record is last |
| Store.Update | src/routes.js:108-114 | length and ids unchanged; records with other ids untouched; with unique ids the record with the id carries the new fields; an absent id changes nothing |
| Store.Delete | src/routes.js:137 | one record fewer when the id is present, none otherwise; no record is invented; with unique ids the id is gone and every other record stays |
| Store.InsertFresh | src/routes.js:60-72 | appending a record with a fresh id keeps ids unique, and selecting that id returns exactly the appended record |
| Store.DeleteKeepsUnique | src/routes.js:137 | deleting keeps ids unique |
| Routes.SearchFilter | src/routes.js:25-38 | no filter exactly when `search` is absent or empty (falsy); otherwise every field but `id` is searched for the `search` text |
| Routes.List | src/routes.js:24-40 | `GET /tasks` answers 200, never changes the table, and passes no filter exactly when `search` is absent or empty |
| Routes.Create | src/routes.js:46-73 | 400 exactly when the body fails the schema, with the table unchanged; otherwise 201 and exactly one task appended, with the fresh id, the body's title and description, empty `completed_at`, and `created_at == updated_at == now` |
| Routes.Edit | src/routes.js:78-117 | a malformed id gives 404 whatever the body, then a bad body gives 400, then an unknown id gives 404, and every failure leaves the table unchanged; success gives 204 and changes only the matching task: title and description from the body, `updated_at = now`, `completed_at`, `created_at` and `id` carried over |
| Routes.Remove | src/routes.js:122-140 | 204 exactly when the id is well formed and present, and then only the matching task is removed, the rest keeping their order; 404 otherwise with the table unchanged |
| Routes.Complete | src/routes.js:145-169 | 400 exactly for a malformed id, 404 exactly for an unknown one, table unchanged on failure; success gives 204 and sets `completed_at = updated_at = now` on the matching task only, keeping its title, description, `created_at` and `id` |
| Routes.MalformedIdStatuses | src/routes.js:83-152 | for a malformed id PUT and DELETE answer 404 but PATCH-complete answers 400, and none of them touches the table |
| Routes.HandlersKeepIdsUnique | src/routes.js:60-166 | every mutating handler keeps ids unique, given that the generated id is fresh |
| Routes.CreateThenSelect | src/routes.js:60-72 | after a successful create, selecting the fresh id returns exactly the task that was built |
| Routes.DeleteTwice | src/routes.js:134-139 | after a successful delete the id is gone, so deleting it again answers 404 and changes nothing |
| Routes.EditKeepsCompletion | src/routes.js:103-114 | after a successful edit the task found by its id keeps its `completed_at` and `created_at`, and has `updated_at == now` |
| Routes.CompleteStamps | src/routes.js:156-166 | after a successful complete the task found by its id has `completed_at == updated_at == now` (non-empty), and the table's ids are unchanged |
| Routes.CreationTimeIsStable | src/routes.js:61-166 | no handler changes the `created_at` of any task id that was already there |
| CsvImport.Collect | src/server.js:13-27 | a list of lines yields at most one payload per line |
| CsvImport.Lines | src/server.js:11 | the lines of a chunk: at least one, none holding a newline, and joined with newlines they give the chunk back |
| CsvImport.ChunkPayloads | src/server.js:9-44 | a chunk yields at most one payload fewer than its lines: the first line never yields one |
| CsvImport.ImportPayloads | src/server.js:8-13 | the payloads of an upload are exactly those of its chunks, each chunk handled on its own |
| CsvImport.RowPayload | src/server.js:15-27 | a line yields a payload exactly when it differs from the chunk's first line, holds a non-white-space character, and has exactly one comma; the payload is the trimmed text on either side of that comma |
| CsvImport.CollectAppend | src/server.js:13 | payloads follow line order: collecting concatenated line lists concatenates their payloads |
| CsvImport.CollectMembers | src/server.js:13-27 | a payload is collected exactly when some line yields it |
| CsvImport.ChunkPayloadOrigin | src/server.js:11-27 | every payload of a chunk comes from a line that is not a copy of the first line, and every such line's payload is there |
| CsvImport.ImportAppend | src/server.js:8-13 | chunks are processed independently: the payloads of concatenated chunk lists are the concatenated payloads |
| CsvImport.ExampleUpload | src/server.js:11-27 | `title,description\nA,B\n,\nC,D,E\n` yields exactly `("A","B")` and `("","")` |
| CsvImport.RepeatedHeaderSkipped | src/server.js:15 | a second copy of the header line inside the chunk is skipped too |
| CsvImport.HeaderSkippedPerChunk | src/server.js:11-15 | the header logic is per chunk: the same text in two chunks loses the second chunk's first data line |
| Server.Dispatch | src/server.js:55-76 | a `POST` to exactly `/tasks/import-csv` bypasses routing; otherwise the chosen route is the first in declaration order whose method is equal and whose pattern matches; no route exactly when none does |
| Server.QueryOf | src/server.js:71 | an absent or empty query group gives an empty query map; otherwise the decoded query |
| Server.Serve | src/server.js:52-77 | the import path yields the upload's payloads whatever the routes; a `GET`, `POST`, `PUT`, `DELETE` or `PATCH` whose URL matches that verb's route is answered by its handler with the matched path parameters and decoded query, and otherwise answers 404 with the table unchanged; any other verb answers 404; a list never changes the table; a failing handler leaves the table unchanged |
| Server.DispatchByVerb | src/server.js:61-63 | no two routes of the table share a method, so a request reaches the route of its method exactly when that route's pattern matches |
| Server.ServeKeepsIdsUnique | src/server.js:61-73 | serving any request keeps ids unique, given a fresh generated id |
| Server.ImportedRowsAreCreatable | src/server.js:24-34 | every body the import posts passes the create schema, so create answers 201 and appends that row |
| Server.CreateThenListScenario | src/routes.js:24-72 | `POST /tasks {"title":"A","description":"B"}` on an empty table answers 201; a following `GET /tasks` answers 200, the table holds exactly that task, and no filter is passed to `select` |
| Server.MalformedIdScenario | src/routes.js:127-152 | `PATCH /tasks/not-a-uuid/complete` answers 400 while `DELETE /tasks/not-a-uuid` answers 404, and neither changes the table |

## Left out

- HTTP plumbing is not modelled: sockets, `writeHead`/`end`, stream piping, and the
  response texts ("Bad Request.", "Invalid id.", ...). Only status codes and tables are.
  The list handler's JSON serialisation of the selected tasks is not modelled either.
- The list handler is modelled up to the filter it passes to `select`. What `select`
  returns, with or without a filter, belongs to the datastore, which is not part of
  this model, so the tasks a `GET` answers with are not stated.
- The datastore's persistence to a file is not modelled; the table is a value.
- The import's `fetch` back into the server is not modelled, and neither is the
  asynchronous `push` of `{success, data, error}` per row. Their completion order is
  not fixed. The model stops at the ordered list of bodies that would be posted.
- The transform's `catch` / `callback(error)` path is not modelled: splitting and
  trimming a string cannot throw.
- Decoding a chunk's bytes as UTF-8 (`chunk.toString()`) is not modelled. Chunks are
  given as text, so a character split across two chunks is not represented.
- `InverseNumberStream` and the commented-out import route in `src/routes.js` are left
  out. The first parses numbers and only the second uses it.
- The route-pattern compiler, `extractQueryParams` and the JSON body middleware are
  abstract parameters or inputs. Their files are not part of this model.
- A compiled pattern's `test` and `match` are one pure function. Any state a regular
  expression object could carry between calls is not modelled.
- `randomUUID` and `new Date().toISOString()` are parameters. The model does not
  assume uniqueness or clock order unless a lemma states it as a requirement.
- The invariant `updated_at >= created_at` is not modelled, because timestamps are
  opaque strings here.
- Schema.ValidUuid: fixes the UUID syntax as 32 hexadecimal digits grouped 8-4-4-4-12.
  The exact pattern of the validation library's version is not known here. The
  handler laws do not depend on the pattern; only the two scenarios use that
  `not-a-uuid` fails it.

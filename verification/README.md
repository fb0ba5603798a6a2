# todoapp-tarantool: record codec and handler decisions in Dafny

The service stores todo items in a Tarantool space. Two parts of it are pure logic, and this project models both and proves properties about them.

- **The positional record codec** (`models.go`). `Pack` turns a `todoModel` into the five-element tuple `[id, title, completed, created-at seconds, owner]`. `Unpack` checks the length of a tuple, then type-asserts it position by position into the receiver. It returns the error for the first bad position. Fields assigned before that point stay assigned.
- **The decisions inside the four HTTP handlers** (`main.go`). This covers:
  - the order in which `createTodo`, `updateTodo`, `deleteTodo` and `fetchTodos` validate their input;
  - the record `createTodo` inserts;
  - the operator list `updateTodo` sends;
  - the filter `fetchTodos` applies to the select result;
  - the status code and message written for each outcome.

The Dafny modules follow that split:

- `GoTypes` (`go_types.dfy`): fixed-width integers, Go's `int64(uint64)` conversion, `time.Time` as Unix seconds plus nanoseconds, and `Option`.
- `GoStrings` (`go_strings.dfy`): `strings.TrimSpace`, using the white-space set of `unicode.IsSpace`.
- `Models` (`models.go`, modelled in `models.dfy`):
  - the tagged value type `Value = U64 | I64 | Str | Bool | Other`, which stands in for `interface{}`;
  - the `Todo` record, `Pack` and `Unpack`;
  - `Normalize`, the wire step between storing a tuple and reading it back: a non-negative signed integer comes back unsigned.
- `Handlers` (`handlers.dfy`): each handler is a function. Its inputs are the outside world's answers:
  - the decoded JSON body (`None` if decoding failed);
  - a `parseUint` function standing for `strconv.ParseUint(_, 10, 64)`;
  - the `rand.Uint32()` value and `time.Now()`;
  - whether `db.Connect()` succeeded;
  - what `Execute` returned.

  Each handler returns an `Outcome`. It holds the status and body of the reply the handler writes first, and the steps it took in order (`DecodeBody`, `Connect`, `Execute(request)`). This makes "rejected before storage is touched" something a contract can state.

Behaviour of the code that a reader might not expect, all modelled as written:

- createTodo and updateTodo compare the raw title with `""` (main.go:58, 119). There is no trimming, so a title made only of blanks is accepted (`Handlers.HasTitle`, `Handlers.CreateTodo`).
- `Unpack(Pack(m))` always fails at CreatedAt: `Pack` writes `CreatedAt.Unix()`, a signed `int64` (models.go:23), and `Unpack` accepts only a `uint64` there (models.go:50-53). See `Models.UnpackPackFails`. A round trip holds only through the wire step, and only for whole, non-negative seconds (`Models.RoundTrip`).
- fetchTodos answers a failed connect with 400, not 500, and does not return (main.go:157-163); a failed Execute gets 500 (main.go:172-180). See `Handlers.FetchTodos`.
- There is one record shape: the five-field `todoModel` with `Owner` (models.go:9-15).

## Model

| member | source | states |
|---|---|---|
| GoTypes.ToInt64 | models.go:54 | `int64(t)` keeps t's 64 bits: the result equals t exactly when t < 2^63, and is negative exactly when t >= 2^63 |
| GoStrings.TrimSpace | main.go:101 | the trimmed id is a contiguous slice of the raw one, with only white space around it and no white space at either end |
| GoStrings.TrimSpaceIdempotent | main.go:198 | trimming an already trimmed id changes nothing |
| GoStrings.TrimSpaceKeepsTrimmed | main.go:101 | a string with no white space at either end is returned unchanged |
| Models.Position | models.go:18-25 | every field has a position inside the five-element tuple |
| Models.PositionInjective | models.go:20-24 | no two fields share a tuple position |
| Models.AsUint64 | models.go:35 | the comma-ok assertion `v.(uint64)`: ok exactly when v holds a uint64; the value is v's, or 0 when the assertion fails |
| Models.AsString | models.go:40 | the comma-ok assertion `v.(string)`: ok exactly when v holds a string; the value is v's, or "" when the assertion fails |
| Models.AsBool | models.go:45 | the comma-ok assertion `v.(bool)`: ok exactly when v holds a bool; the value is v's, or false when the assertion fails |
| Models.ErrorTextInjective | models.go:29-59 | the six Unpack error texts are pairwise distinct, so the text identifies the failing position |
| Models.Pack | models.go:18-26 | exactly five elements; id, title, completed and owner have the kinds Unpack expects; position 3 is the signed Unix seconds of CreatedAt; so the result is never a tuple Unpack accepts |
| Models.PackDropsNanos | models.go:23 | records that differ only below the second pack to the same tuple |
| Models.Unpack | models.go:28-62 | "bad data length" exactly when the length is not 5, with the receiver unchanged; nil exactly for a well-formed tuple; otherwise the error names the first position whose type is wrong; earlier fields are overwritten, the failing field is zeroed (except CreatedAt, which stays untouched), later fields are unchanged; on success every field comes from its position and CreatedAt is `int64(t)` seconds with 0 nanoseconds |
| Models.UnpackPackFails | models.go:23-53 | Unpack of a freshly packed tuple fails with the CreatedAt error, after copying ID, Title and Completed into the receiver |
| Models.Normalize | models.go:50-53 | after the wire step no element is a non-negative signed integer |
| Models.NormalizeKeepsWellFormed | models.go:35-59 | a tuple Unpack accepts holds no signed integers, so the wire step leaves it unchanged |
| Models.UnpackNormalizedPack | models.go:18-61 | Pack, wire step, Unpack returns the record with CreatedAt cut to whole seconds when those seconds are non-negative; a negative timestamp fails at CreatedAt |
| Models.RoundTrip | models.go:18-61 | a record with whole, non-negative seconds survives Pack, the wire step and Unpack exactly, into any receiver |
| Models.PackUnpackedTuple | models.go:18-61 | a well-formed tuple re-packs (after the wire step) to itself exactly when its timestamp is below 2^63 |
| Handlers.HasTitle | main.go:58 | a body passes the title check exactly when it decoded and its title is non-empty; a title of nothing but white space passes |
| Handlers.CreateTodo | main.go:49-98 | 400 exactly for an undecodable body or an empty title, before any record is built or storage is touched; 201 exactly when connect and insert succeed, with the new id in the reply; otherwise 500; after a failed connect the handler carries on; the inserted tuple is the packed record (random id, request title, not completed, now, no owner) |
| Handlers.CreateReadsOnlyTitle | main.go:66-71 | only the title of the request body influences createTodo |
| Handlers.CreateInsertsFreshRecord | main.go:66-84 | the inserted tuple reads back, after the wire step, as a record with an id below 2^32, the request title, not completed, no owner, created at the current whole second |
| Handlers.UpdateOps | main.go:134-141 | exactly two assignments to two distinct positions, each being the title or the completion flag, each argument of the kind Unpack expects there |
| Handlers.ApplyAssigns | main.go:137-140 | applying `=` operators keeps the tuple's length, leaves every untargeted position as it was, and gives each targeted position the argument of the last operator on it |
| Handlers.UpdateScope | main.go:134-141 | on a packed record, the update changes the title and completion flag and leaves id, created-at and owner alone |
| Handlers.UpdateKeepsStoredRecord | main.go:134-141 | a stored tuple that unpacks still unpacks after the update, to the same record with only title and completed replaced |
| Handlers.ParseId | main.go:101-103 | the parser receives the raw id with only white space removed around it (a contiguous slice of it), and trimming first makes no difference |
| Handlers.UpdateTodo | main.go:100-154 | an unparseable (trimmed) id gives 400 with no body decoded and no storage contact, whatever the body holds; 400 exactly for a bad id, an undecodable body or an empty title; 200 exactly when connect and update succeed; otherwise 500; the update sent is keyed by the parsed id and carries exactly the title and completed assignments |
| Handlers.DeleteTodo | main.go:197-232 | an unparseable id gives 400 with no storage contact; 200 exactly when connect and delete succeed; otherwise 500; the delete is keyed by the parsed id |
| Handlers.IdPaddingIgnored | main.go:101-103 | white space around the id makes no difference to updateTodo or deleteTodo |
| Handlers.KeepFailed | main.go:182-190 | the fetch filter as written keeps no more records than tuples; every kept record is the zero record filled by a failed Unpack of some tuple, and every tuple whose Unpack fails has its record listed |
| Handlers.KeepFailedAppend | main.go:183-190 | the filter works tuple by tuple in storage order: it distributes over concatenation |
| Handlers.FiltersPartition | main.go:183-190 | every tuple is kept by exactly one of the as-written and the intended filters |
| Handlers.KeepFailedDropsWellFormed | main.go:182-190 | a response of well-formed tuples yields an empty list |
| Handlers.KeepFailedStored | main.go:182-190 | fetching the stored tuples of records with whole non-negative seconds lists nothing |
| Handlers.KeepDecoded | main.go:187-189 | the intended filter keeps no more records than tuples, and every kept record comes from a successful Unpack |
| Handlers.KeepDecodedComplete | main.go:183-190 | every tuple that unpacks has its record listed by the intended filter |
| Handlers.KeepDecodedStored | main.go:182-190 | with the intended filter, fetching stored records gives them back in storage order |
| Handlers.FetchLosesStoredTodo | main.go:187-189 | one stored record is lost by the as-written filter and recovered by the intended one |
| Handlers.FetchTodos | main.go:156-195 | a failed connect gives 400, not 500, and the handler carries on; otherwise a select on the "created" index, key MaxUint64, iterator less-or-equal; 500 exactly when it fails; otherwise 200 with the as-written filter's list, never longer than the response |

## Left out

- HTTP routing (chi), the request-logging middleware, JSON and template rendering, and `homeHandler`. These are plumbing over libraries outside this code.
- Server startup, graceful shutdown, signal handling, the `init` connection and `checkErr`/`log.Fatal` (main.go:33-42, 234-284). These are process lifecycle and concurrency.
- The Tarantool client itself: connecting, `Execute`, and which tuples a select returns in which order. Connect success, execute success and the response tuples are inputs.
- What the store does on update or delete of a missing key. The handlers report success whenever `Execute` does.
- What happens after a failed connect. The handlers go on to call `Execute` on a connection that may be nil. The model records the reply written first and sets `continues`; the nil dereference is not modelled.
- `encoding/json` body decoding and `strconv.ParseUint`. The decoded body is an `Option<Todo>` input; the parser is a function parameter.
- `rand.Uint32` and `time.Now`. Both are parameters.
- The error values attached to some replies. They come from the store or the JSON decoder and are opaque.
- The `log.Println(err)` in fetchTodos after a failed Execute (main.go:174). Logging writes nothing the client sees, so it is not recorded among the effects.
- The location and monotonic reading carried by `time.Time`. An instant is modelled only as Unix seconds plus nanoseconds.
- `strings.TrimSpace` works on UTF-8 bytes. The model works on characters, so invalid UTF-8 in the URL is not modelled.
- The wire step `Models.Normalize` is an assumption about how the store returns integers, not code in the repository. It only appears in the round-trip lemmas.
- Handlers.ApplyAssigns: models `=` only on positions already present in the tuple. Assignments past the end (an append, or an error from the store) are not modelled. `updateTodo` never targets such a position on a five-element tuple.

## Findings

| source | as written | input that shows it | evidently intended | confidence | as-written member | corrected member |
|---|---|---|---|---|---|---|
| main.go:187 | `fetchTodos` appends a record only when `Unpack` returned an error, so every well-formed tuple is dropped and only zero-filled or partly filled records are listed | a store holding the tuple of `Todo(1, "buy milk", false, epoch, "")`. If the store returns its non-negative integers unsigned (the wire step), the handler replies 200 with an empty list. If it returns them as written, Unpack fails at CreatedAt, and the list shows the record with CreatedAt at the zero time and an empty Owner, while the corrected filter lists nothing. Which symptom a client sees depends on how the store returns integers | keep the records `Unpack` succeeded on (`err == nil`) and drop the rest | high; not executed | Handlers.KeepFailed, shown by Handlers.FetchLosesStoredTodo and Handlers.KeepFailedStored | Handlers.KeepDecoded, with Handlers.KeepDecodedStored proving stored records come back in order |

`Handlers.FetchTodos` keeps the as-written filter, because it models the handler as it stands. The store-then-fetch round trip is stated and proved for the corrected filter.

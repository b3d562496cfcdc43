# A verified model of the imbh C and C++ binding

imbh-c is a binding over the IMBH engine: a Rust library that exports a C ABI, and a header-only C++
wrapper. The engine itself is foreign code. What the binding decides on its own is modelled here and
proved with Dafny 4.11; `dafny verify dfyconfig.toml` checks the project.

## What is modelled

* **Ownership across the boundary** (`Ownership.dfy`, `OwnershipProofs.dfy`, `OwnershipLaws.dfy`,
  `Wrappers.dfy`, `Program.dfy`). Rust hands out database handles, query builders, byte buffers and Arrow
  streams as raw pointers; the C++ classes own, move, relinquish and free them, and failing calls throw in the
  middle of a method. The heap of resources counts releases and raises a fault when anything dead is used or released,
  or released with the wrong type or length. `Ownership` defines what each wrapper method does to its
  fields and builds a state machine of seventeen operations over any number of wrappers, raw calls into
  slots that `get()` returned included; `OwnershipProofs` proves its invariant over every run and says
  exactly which runs leak and what; `OwnershipLaws` says what each operation does to owners and resources,
  and what chains of moves pass on. `Wrappers` holds the classes themselves, with fields updated in place,
  proved against the same functions; `Program` executes whole runs on a population of such objects and so
  carries the run theorems over to them (aliasing and self-assignment included). A moved-from `Stream` keeps
  stale private data and only loses its release callback, as in the source.
* **The error channel** (`Utf8.dfy`, `ErrorChannel.dfy`, `MessageLifetime.dfy`). `guard` turns every outcome
  of a body into a code and a message in the calling thread's slot; runs interleave guarded and unguarded
  calls of any number of threads. Strings are sequences of Unicode scalar values, encoded and strictly
  decoded as in sections 3 and 4 of RFC 3629, so what a reader of the returned pointer sees is exact down to
  the byte, and so is how long it may be read.
* **Fallible builders** (`CArgs.dfy`, `Histories.dfy`, `LogBuilder.dfy`, `PointsBuilder.dfy`,
  `FluentLogQuery.dfy`). All fourteen setters and adders of the log query and the four of the metric-points
  query, as methods that decode C strings and arrays and may fail halfway, and what any run of such calls
  leaves behind; for the log query also the C++ methods on top of them, with pointer, error channel and
  exception.
* **Offset paging** (`Paging.dfy`). `imbh_db_logs_page`, `imbh_db_logs_count` and the documented client loop.
* **Marshalling and draining** (`Columns.dfy`, `Drain.dfy`). Record fields pushed into parallel columns, a
  batch list exported as a stream, and the quickstart consumer that drains it, on every exit path.
* **Smaller parts**: per-table statistics against the totals (`TableStats.dfy`), PromQL metric-name
  resolution (`PromQl.dfy`), and the byte-array printer behind the shipped example header (`Fixture.dfy`).

## What is assumed

* The engine enters as parameters. How a call's validation and execution end is an input (it returns, fails
  with one of the error kinds, or panics). A log query answers with the slice of a fixed row sequence that
  starts at the offset and holds at most the limit (100 when the limit is 0); the row sequence does not
  depend on limit or offset, and its length does not depend on the direction. Row counts fit in 64 bits.
* Exported streams own their data, so no stream refers to the database or builder it came from.
* A batch can be built exactly when Arrow's own condition holds (`Columns.Buildable`).
* The safety comments are preconditions: a `const char*` is null or NUL-terminated, a released stream is not
  pulled from, and a consumer releases a stream it was given once. That an out slot holds no unreleased
  stream is not assumed: `RawCallLeaksIff` shows what that precondition is worth.
* Batch lengths are not negative. From 2^63 rows on the example's C addition overflows; `DrainLoop` then
  speaks of the wrapped value, which C itself does not promise.

## Where the code and its documentation differ

* Raw calls overwrite their out slot. Only the notes of `imbh_db_query_sql` (src/lib.rs:600-601),
  `imbh_db_attr_names` (src/discovery.rs:182-183) and `imbh_db_query_promql` (src/lgtm.rs:42-43) exclude a slot
  that holds an unreleased stream; `imbh_db_logs_query` (src/query.rs:767), `imbh_db_logs_page`,
  `imbh_db_metric_catalog`, `imbh_db_segments` and others ask only for a writable slot, and so do
  `imbh_db_export` and `imbh_db_query_sql_ipc`, whose slot `Bytes::get()` is offered for. Within those rules a
  second call into one object leaks what the first returned (`SecondQueryLeaks`, `SecondExportLeaks`). A raw
  call leaks exactly when it returns and its slot owned something (`RawCallLeaksIff`), and a run leaks exactly
  what its raw calls overwrote (`NothingLeaks`, `LeakFreeIff`). The classes' own query methods always start
  from an empty slot.
* A message pointer is documented to be valid until the next `imbh_*` call of its thread; it stays valid until
  the next guarded one (`PointerLivesIff`), so `*_new` and `*_free` calls in between do not end it.
* The header promises a null message when the most recent `imbh_*` call on the thread succeeded. The `*_new`
  and `*_free` functions bypass `guard`, so a stale message can survive them: `StaleMessageExample` is such
  a run and `SuccessClearsIff` says exactly when the promise holds.
* Paging with the default limit (0) never reports a next page, as documented; `DefaultLimitCoversIff` says
  when one call is nevertheless enough.
* A `std::string` with an embedded NUL is silently cut by `c_str()`: see `CppStringArrives` and
  `NulCutsCppString`.
* A `u64` column value at or above 2^63 is read back as a negative number: see `CastKeepsBits` and
  `CountsReadBackIff`.

## Model

The main results come first; the operations and lemmas they rest on follow, module by module.

| member | source | states |
|---|---|---|
| Program.RunProgram | include/imbh.hpp:48-120 | a whole program on real wrapper objects, ending with the destructors of all living wrappers in any order, misuses nothing, releases every resource at most once, and leaves unreleased exactly the streams it gave away that no consumer released, and what raw calls overwrote |
| Program.Population.Execute | include/imbh.hpp:48-148 | executing any run with the classes' own methods ends in the state the run model predicts |
| OwnershipProofs.StepKeepsInv | include/imbh.hpp:48-120 | every operation keeps: owned resources are live and of the owner's type and length, owners are unique, and what is live but held by no one is exactly what successful raw calls overwrote |
| OwnershipProofs.RunsAreSafe | include/imbh.hpp:48-148 | in every run no resource is used or released after its release; each is released at most once, and is unreleased exactly when a wrapper or a consumer holds it or a raw call overwrote it; no two of these hold the same one |
| OwnershipProofs.NothingLeaks | include/imbh.hpp:68-80 | once all wrappers are destroyed the unreleased resources are exactly the streams handed out by `release()` and not released by their consumer, and the resources that raw calls overwrote |
| OwnershipProofs.LeakFreeIff | include/imbh.hpp:48-120 | a run that has destroyed all its wrappers has leaked nothing if and only if no raw call of it overwrote a resource |
| OwnershipProofs.LosesNothingIff | src/lib.rs:599-601 | a run loses nothing if and only if every raw call of it that returned had a slot that owned nothing |
| OwnershipProofs.RawCallLeaksIff | src/lib.rs:858-909 | a raw call into a stream or byte slot leaks if and only if it returns and the slot owned a resource |
| OwnershipProofs.SecondExportLeaks | include/imbh.hpp:105-106 | two exports into one `Bytes` leave the first buffer unfreed after every destructor has run |
| OwnershipProofs.SecondQueryLeaks | src/query.rs:767-768 | a raw query into a `Stream` that holds a result leaves that result unreleased after every destructor has run |
| OwnershipProofs.GivenIsGaveAway | include/imbh.hpp:68-73 | along any run the outstanding given-away streams are those that `release()` returned minus those their consumer released; a released one is never handed out again |
| OwnershipProofs.DestroyInAnyOrder | include/imbh.hpp:335-344 | from any reachable state all wrappers can be destroyed in any order, which releases everything but the given-away streams, without a fault |
| OwnershipProofs.StreamOutlivesItsDb | src/arrow_stream.rs:5-8 | a stream can still be pulled from after any operations on other wrappers, its database and builders included |
| OwnershipLaws.MoveHandsOver | include/imbh.hpp:53-61 | a move, by construction or assignment, of any class gives the target the whole value of the source, which then owns nothing; an assignment releases exactly what the target owned; nothing else changes |
| OwnershipLaws.MovedResource | include/imbh.hpp:48-148 | after any chain of moves, self-assignments included, the last target alone owns the resource, which is live and as it was |
| OwnershipLaws.QueriedStreamIsReached | include/imbh.hpp:365-369 | the stream of a query, however often it is moved, is owned by the last target alone, and a pull through that target reaches it |
| OwnershipLaws.CallsCreate | include/imbh.hpp:316-369 | a constructor or returning call, raw ones included, leaves the wrapper owning a resource of the right type and length that did not exist before; an empty byte vector needs none |
| OwnershipLaws.ResetReleases | include/imbh.hpp:75-80 | `reset()` and every destructor release exactly what the wrapper owned |
| OwnershipProofs.MovedFromIsMisuse | include/imbh.hpp:138-146 | after a move out of a `Db` or builder, by construction or assignment, every later call through it in any run (a query of a live `Db` with a moved-from builder included) reports INVALID_ARG and changes nothing, until something is moved into it |
| OwnershipProofs.NullIsMisuse | src/query.rs:775-786 | a call through a null handle or a null builder reports INVALID_ARG whatever the engine would do and changes nothing; any other call ends as the engine does |
| OwnershipProofs.FailureChangesNothing | include/imbh.hpp:365-369 | an operation whose call fails, for any reason, leaves all wrappers, slots and resources as they were |
| OwnershipProofs.QueryIsAllOrNothing | include/imbh.hpp:316-333 | a query or open creates its wrapper exactly when the call returns, and otherwise changes nothing |
| OwnershipProofs.BytesRoundTrip | src/lib.rs:263-282 | a byte buffer is freed once as the region that was allocated; the empty vector's non-null pointer is never freed |
| Paging.FetchAll | README.md:141-144 | the documented loop, run against the entry point with calls that return, collects exactly those pages and terminates |
| Paging.FetchWithRetries | include/imbh.hpp:404-409 | when any page calls throw and are repeated from the same cursor, the rows read and those from the cursor on are always the rows from the start on; a finished client has read exactly these, and it is finished once more calls have returned than there are rows |
| Paging.CoverageIff | src/query.rs:955-970 | the pages put together are the rows from `after` on, each once and in order, exactly when the last call had a limit or at most 100 rows were left to it |
| Paging.PositiveLimitsCover | src/query.rs:956-970 | with positive limits, chosen anew for each call, paging from any offset reads exactly the suffix |
| Paging.ExactCalls | src/query.rs:961-967 | a fixed limit L takes floor(remaining / L) + 1 calls, all full but the last, which has remaining mod L rows |
| Paging.TotalIsCount | src/query.rs:995-997 | a client that pages from 0 with positive limits and then asks for the count gets all rows, and the returned counts add up to the reported count |
| Paging.DefaultLimitCoversIff | src/query.rs:932-933 | with the default limit the loop stops after one call, enough exactly when at most 100 rows remain |
| Paging.LogsPage | src/query.rs:939-974 | all out slots are written or none, with the page at `after` (the cursor wins over the stored offset), its next offset and the has-more flag; the builder is not changed |
| Paging.PageMeaning | src/query.rs:955-970 | row i of a page is row after + i; there are no more than the limit (100 for 0) and fewer only at the end; there is a next page exactly for a full one with a limit |
| Paging.SuffixMeaning | src/query.rs:926-930 | the rows still to be read from an offset are those at and after it, in order, and none past the end |
| ErrorChannel.SlotHoldsLatest | src/error.rs:63-76 | in any interleaving a thread's slot is empty or holds the message of its latest guarded call, whatever other threads and unguarded calls did since |
| ErrorChannel.FailureIsReported | examples/c/quickstart.c:16-32 | after a failed call and any later calls that are not guarded calls of the same thread, both the C and the C++ reader get exactly that call's cleaned message |
| ErrorChannel.FailureText | src/error.rs:101-137 | the code and the exact text a C++ caller catches for each way a call can fail: an engine error's text, a misuse's or failed query's reason, or `panic: ` and the payload |
| MessageLifetime.PointerLivesIff | src/error.rs:138-151 | a message pointer stays valid, with its text, exactly until the thread's next guarded call |
| MessageLifetime.FailureReadIsValid | examples/c/quickstart.c:16-38 | after a failed call and any calls that are not guarded calls of its thread, the pointer read is valid and points to that call's message |
| ErrorChannel.SlotNonEmptyIff | src/error.rs:101-126 | a slot is non-empty exactly when the thread's latest guarded call exists and failed |
| ErrorChannel.SuccessClearsIff | src/error.rs:138-140 | a successful call leaves a null message exactly when it is guarded or the slot was already empty |
| ErrorChannel.StoredReadsBack | src/error.rs:146-151 | reading the returned pointer to its first NUL gives the whole cleaned message as UTF-8, which is the message itself exactly when it had no NUL |
| Utf8.EncodeDecode | src/lib.rs:298-300 | whatever the strict decoder accepts is the encoding of its result |
| Utf8.DecodeEncode | src/lib.rs:294-301 | decoding the encoding of any string gives the string back |
| Utf8.EncodingTable | src/lib.rs:298-300 | the bytes of a scalar are those of the table in section 3 of RFC 3629 |
| LogBuilder.Build | src/query.rs:208-455 | a client that makes any calls on a fresh builder, going on after failures, is left with exactly what the calls that returned OK gave each field |
| FluentLogQuery.Chain | include/imbh.hpp:134-172 | a fluent chain on a new C++ `LogQuery` runs up to the first call with an argument that does not decode and throws that argument's error; the builder behind it holds, field by field, exactly what the calls before gave |
| FluentLogQuery.Call | include/imbh.hpp:150-171 | each method throws INVALID_ARG exactly when the object was moved from or an argument does not decode, with that error's message; otherwise the message behind its pointer has the call applied, and no resource and no other builder changes |
| LogBuilder.RunIsFieldByField | src/query.rs:208-455 | after any run of calls each field holds the last value, or all values in order, given to it by the calls that returned OK, and nothing else |
| LogBuilder.FailedCallIsInvisible | src/query.rs:208-455 | striking a failed call from anywhere in a run leaves the same builder |
| LogBuilder.BadElementRejectsCall | src/query.rs:398-433 | one bad array element at any position rejects the call with its own error and leaves the builder alone |
| LogBuilder.SettersSet | src/query.rs:208-317 | each of the seven setters replaces its own field with its own raw arguments, once decoded, and nothing else |
| LogBuilder.AddersAppend | src/query.rs:324-390 | the key-value adders append key and value, in their places, to their own list, and change nothing else |
| LogBuilder.KeyAddersAppend | src/query.rs:343-455 | so do the adders for an existing key and for a number comparison |
| LogBuilder.ArrayAddersAppend | src/query.rs:398-433 | so do `attr_in` and `attr_not_in`, each on its own list, with all values in order; null stands for an empty array only |
| LogBuilder.BadFirstArgument | src/query.rs:208-455 | a call whose first string does not decode reports that, whatever follows, and changes nothing |
| LogBuilder.BadSecondArgument | src/query.rs:141-154 | with a good key, a bad value or a null array with elements is reported, and nothing changes |
| PointsBuilder.NativeIsDescribed | src/query.rs:1370-1471 | the query that runs is determined by the call history: last accepted metric, range and limit, accepted filters in order |
| PointsBuilder.RunningIsInvisible | src/query.rs:1441-1476 | running the query any number of times between edits does not matter |
| PointsBuilder.ZeroLimitIsUnset | src/query.rs:1469-1471 | setting the limit to 0 runs the query of a history that never set one |
| PointsBuilder.CallsEdit | src/query.rs:1370-1430 | each call does to its own field what its raw arguments say; one with a string that does not decode does nothing and reports the first such string |
| Drain.Quickstart | examples/c/quickstart.c:22-84 | on every exit path arrays, schema, stream and handle are each released once, in turn and the stream last, nothing is used after release, and the exit code tells the outcomes apart |
| Drain.DrainLoop | examples/c/quickstart.c:61-78 | pulls the batches in order, releases each array before the next pull (as the time-ordered trace of the stream says), terminates, and totals the rows exactly if and only if they are below 2^63 |
| Drain.TotalIsRowsRead | examples/c/quickstart.c:61-78 | the total is the number of rows a consumer reads out of all batches |
| Drain.SumRowsLaws | examples/c/quickstart.c:75-75 | a batch counts with its rows, and totals of lists add up |
| Columns.TraceSummaryBatch | src/discovery.rs:100-141 | never fails; all columns have one value per record; a consumer that looks a column up by its name (all seven) reads that field of record i in row i; only `root_service` and `root_name` may be null |
| Columns.ExemplarBatch | src/discovery.rs:321-350 | the same for the five exemplar columns, with nulls only in `trace_id` and `span_id` |
| Columns.VolumeBatch | src/query.rs:912-920 | the same for the three log-volume columns, without nulls |
| TableStats.CompareStats | src/lib.rs:689-752 | run against each other, the totals entry point reports what the seven per-table calls add up to: exactly when overflow is checked or the sum fits, and modulo 2^64 otherwise |
| TableStats.StatsAgree | src/lib.rs:701-713 | with one entry per table, in any order, each reported total is the sum over the seven selectors as a `u64`, or a panic when overflow is checked and it does not fit |
| TableStats.TotalsAreConserved | src/lib.rs:710-712 | for any list the exact total of each counter is what the seven selectors report plus what earlier entries shadow |
| TableStats.SumLaws | src/lib.rs:710-712 | the sum of one entry is its own field, for each of the three counters, and sums of lists add up |
| PromQl.AllRecoveredIff | src/lgtm.rs:222-242 | every stored metric is reached through its query name exactly when no two names collide |
| PromQl.ContextIff | src/lgtm.rs:226-242 | resolution is the only list with one entry per stored metric in order that has the stored names, dot-free query names equal to them up to dots and underscores, and the kinds |
| Fixture.FixtureRoundTrip | tests/roundtrip.rs:751-758 | reading the printed initializer gives back the bytes |
| Program.Population.Do | include/imbh.hpp:335-369 | each single operation, done by the wrapper classes on objects with distinct identities, is the model's step |
| OwnershipProofs.UntouchedWrapperStays | include/imbh.hpp:48-84 | operations on other wrappers never change a wrapper's fields |
| OwnershipProofs.ExportedIsReached | include/imbh.hpp:543-547 | a program that opens a database and exports once reaches the state of that example |
| OwnershipProofs.QueriedIsReached | include/imbh.hpp:365-369 | a program that opens a database and queries once reaches the state of the stream example |
| OwnershipLaws.MoveChain | include/imbh.hpp:48-148 | after any possible chain of moves the last target has the first object's value |
| OwnershipLaws.GiveAwayHandsOver | include/imbh.hpp:69-73 | `release()` passes on exactly what the wrapper owned and leaves it owning nothing |
| OwnershipLaws.DeadUseIsAFault | src/lib.rs:288-290 | a call records a fault exactly when a handle or builder behind its non-null pointers is not live or of another type; a null pointer ends it before |
| OwnershipLaws.DeadReleaseIsAFault | src/lib.rs:278-282 | a release records a fault exactly when its target is not live or has another type or length, and always counts |
| OwnershipLaws.DeadPullIsAFault | include/arrow/c/abi.h:143-177 | a pull records a fault exactly when the stream is not live |
| OwnershipLaws.NullBuilderText | src/query.rs:176-180 | the message for a null builder tells the five types apart |
| Wrappers.Stream.Assign | include/imbh.hpp:54-61 | resets the target, takes the source's struct, and marks the source released; nothing for itself |
| Wrappers.Stream.Move | include/imbh.hpp:53-53 | the new object takes the struct; the source keeps its private data but loses its release callback |
| Wrappers.Stream.Reset | include/imbh.hpp:75-80 | calls the release callback exactly when there is one |
| Wrappers.Stream.Relinquish | include/imbh.hpp:69-73 | hands the struct to the caller and leaves a released one |
| Wrappers.Bytes.Assign | include/imbh.hpp:93-101 | frees the target's buffer and takes the source's |
| Wrappers.Bytes.Reset | include/imbh.hpp:110-116 | frees a non-null buffer and forgets it |
| Wrappers.Query.Assign | include/imbh.hpp:139-146 | frees the target's builder and takes the source's, for the five builder classes |
| Wrappers.Query.Setter | include/imbh.hpp:150-171 | throws exactly when the setter's body fails, with that body's code and cleaned message, and INVALID_ARG through a moved-from builder |
| Wrappers.Db.Assign | include/imbh.hpp:337-344 | frees the target's handle and takes the source's |
| Wrappers.Db.Free | include/imbh.hpp:561-566 | frees a non-null handle once and forgets it |
| Wrappers.Db.Open | include/imbh.hpp:316-333 | a failing open throws its own message, and the code of its category, and creates no handle |
| Wrappers.Db.QueryStream | include/imbh.hpp:365-415 | returns a stream owning the exported one, or throws the call's code and message with the heap as it was; through a null handle or with a null builder it throws that misuse with INVALID_ARG |
| Wrappers.Db.QueryBytes | include/imbh.hpp:543-553 | the same for byte buffers, a null handle included |
| Wrappers.Library.ExportStream | src/lib.rs:603-618 | the out slot is written only when the body returns, and the code and message slot are those of the body |
| Wrappers.Library.OpenHandle | src/lib.rs:409-420 | the handle is boxed and written only on success |
| Wrappers.Library.BytesFree | src/lib.rs:278-282 | frees only a non-null buffer of positive length |
| Wrappers.Library.ExportBytes | src/lib.rs:892-909 | the byte slot is overwritten only when the body returns, and the code and message slot are those of the body |
| Paging.NextFits | src/query.rs:965-967 | the next offset never passes the larger of `after` and the row count, so the 64-bit addition cannot overflow |
| Paging.LogsCount | src/query.rs:983-1000 | pointers are checked in order; the slot is written only on success, with the number of rows of any query with the same filters, whatever its limit, offset and direction |
| ErrorChannel.CodeOf | src/error.rs:101-126 | OK exactly for a body that returns, PANIC exactly for a panic, INVALID_ARG exactly for binding misuse, QUERY for a failed query, and for an engine error its classification |
| ErrorChannel.Classify | src/error.rs:80-97 | backpressure and not-found win, in that order; otherwise each code stands for exactly its category, Storage also for categories added later |
| ErrorChannel.CleanedIsAccepted | src/error.rs:67-72 | a cleaned message never contains a NUL byte, so the `CString` fallback is unreachable |
| ErrorChannel.CleanedLength | src/error.rs:69-69 | each NUL makes the stored message exactly two bytes longer |
| ErrorChannel.LastErrors.Guard | src/error.rs:101-126 | returns the body's code and changes only the calling thread's slot |
| ErrorChannel.LastErrors.SetLastError | src/error.rs:67-72 | stores the cleaned message in the thread's slot |
| ErrorChannel.LastErrors.Check | include/imbh.hpp:39-44 | throws exactly for a non-OK code, with the thread's message |
| ErrorChannel.StaleMessageExample | src/query.rs:186-190 | a failed setter followed by a successful builder allocation leaves the old message readable |
| ErrorChannel.NulIsReplaced | src/error.rs:69-69 | in the stored bytes each NUL becomes EF BF BD, and what stands around it is kept |
| MessageLifetime.SlotsAreOwned | src/error.rs:63-76 | each non-empty slot owns a live string, and these strings are the messages of the value model |
| Utf8.ReadCStrAccepts | src/lib.rs:294-301 | `cstr` returns a string exactly for a pointer to its NUL-terminated encoding |
| Utf8.CppStringArrives | include/imbh.hpp:150-150 | a C++ string passed through `c_str()` arrives unchanged exactly when it contains no NUL |
| Utf8.NulCutsCppString | include/imbh.hpp:150-150 | with an embedded NUL, the part before it arrives and the call succeeds |
| CArgs.ReadAllOk | src/query.rs:141-154 | an array decodes to a list exactly when every element decodes to the list's element in the same place |
| CArgs.ReadAllErr | src/query.rs:150-152 | an array fails with the error of its first bad element, wherever it stands |
| CArgs.BadStringIff | src/lib.rs:294-301 | a string argument is refused exactly when it is null or not the encoding of any string, and the message tells which |
| CArgs.ReadStrArray | src/query.rs:141-154 | the loop computes the list, or the first element's error, or rejects a null array of positive length |
| CArgs.ReadPromoteKeys | src/lib.rs:390-400 | agrees with `read_str_array` except that it takes any null array as empty |
| CArgs.CppVectorArrives | include/imbh.hpp:123-130 | a vector of C++ strings arrives unchanged exactly when none contains a NUL |
| LogBuilder.CppAttrInArrives | include/imbh.hpp:162-171 | a C++ `attr_in` is accepted unchanged exactly when neither key nor values contain a NUL |
| LogBuilder.Perform | src/query.rs:208-455 | each of the fourteen setters and adders reports a null builder first, then its first argument that does not decode, and changes its own field exactly when it returns OK |
| PointsBuilder.Assemble | src/query.rs:1453-1471 | assembles the native query from the stashed inputs and leaves the builder alone |
| PointsBuilder.AddPointsFilter | src/query.rs:1386-1397 | as above for key, then value; appends the pair only when both decode |
| PointsBuilder.SetPointsMetric | src/query.rs:1370-1379 | null builder, the string's own decode error, or success: reported in that order, and only success changes the metric |
| PointsBuilder.SetPointsRange | src/query.rs:1404-1414 | replaces the range |
| PointsBuilder.SetPointsLimit | src/query.rs:1421-1430 | replaces the limit |
| PointsBuilder.LatestWins | src/query.rs:1370-1471 | a metric, range or limit that no later accepted call of its kind replaced is the one the query runs with |
| Drain.ExportBatchesInfer | src/arrow_stream.rs:31-37 | the exported schema is the first batch's, or empty |
| Drain.InTurnAt | examples/c/quickstart.c:63-77 | array k is pulled as event 2k and released as event 2k + 1 of the trace |
| Drain.FirstFailureIsEarliest | examples/c/quickstart.c:22-43 | the failure reported is the earliest in program order |
| Drain.Start | examples/c/quickstart.c:16-41 | the first failing call's own message is printed although the handle was freed before it is read |
| Columns.TraceRowInjective | src/discovery.rs:110-118 | a row determines its record |
| Columns.CastKeepsBits | src/discovery.rs:115-116 | a `u64` stored as `i64` keeps its bits, and its value exactly below 2^63 |
| Columns.CountsReadBackIff | src/query.rs:918-918 | signed readers see every count exactly when none reaches 2^63 |
| TableStats.ToEngine | src/lib.rs:113-137 | the two table conversions are inverse on either side |
| TableStats.FirstIsEarliest | src/lib.rs:734-738 | the entry found for a table is the earliest one |
| TableStats.DbTableStats | src/lib.rs:724-752 | pointers are checked in order; the slot is written only on success, field by field from the wanted table's first entry, with 0 for a missing time bound |
| TableStats.DbStats | src/lib.rs:689-716 | the slot is written only when all three totals were formed, each the sum over all tables; a checked overflow panics before anything is written |
| TableStats.SumCounter | src/lib.rs:710-712 | adding up in `u64` panics at some entry, or wraps, exactly when the exact sum does not fit |
| TableStats.AddUpTables | src/lib.rs:724-752 | a client that asks `imbh_db_table_stats` for each of the seven selectors adds up the values its slots report |
| PromQl.CollisionIff | src/lgtm.rs:236-236 | two stored metrics share a query name exactly when they are equal up to dots and underscores |
| PromQl.QueryNameIff | src/lgtm.rs:236-236 | the query name is the only dot-free string equal to the stored name up to dots and underscores |
| Fixture.WriteByteFixture | tests/roundtrip.rs:745-762 | the generated text is the opening, the elements, and the closing |
| Fixture.NamesInPlace | tests/roundtrip.rs:745-762 | the include guard opens and closes the header, and the array's name stands before its initializer and in its length |
| Fixture.DataLines | tests/roundtrip.rs:752-757 | n bytes take ceil(n / 12) data lines |

## Left out

- The engine: SQL, PromQL, LogQL and TraceQL evaluation, the WAL, segments, OTLP decoding, query validation and canonical JSON.
- The tokio runtime and real unwinding: a guarded body ends in one of the ways listed under "What is assumed".
- Arrow's memory layout and IPC encoding: a stream is a list of batches with a release state, a byte buffer is a region with a length.
- The metric, span-metrics and trace builders' setters: the same three shapes (set, append, append with an array) as the log builder's.
- The segment, metric-catalog and instant-vector column loops: the same shape as the three that are modelled.
- `build_options`: one branch per field. A zeroed options struct is not the same as null options, since WAL mode and compression are always set from it (src/lib.rs:319-343).
- The PromQL, LogQL and TraceQL entry points other than name resolution, and the remaining ingest and maintenance calls: a handle check followed by engine work.
- The scan statistics other than `rows_returned`: copied field by field.
- PromQl.AllRecoveredIff: the engine's lookup is taken to find the first entry with a query name, because its source is not part of this model.
- Paging.LogsPage: the out pointers are distinct C variables, and the rows stand for the exported stream.
- Columns.TraceSummaryBatch: trace and span ids are taken in their hex form, and doubles as their 64 bits.

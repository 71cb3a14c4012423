# sake-hack list pipeline in Dafny

This project models the `GET /sakes` list pipeline of the sake-hack
catalogue service, together with the small pure helpers it relies on, and
proves properties of the model. The pipeline has four layers:

- **Presentation** (`server_impl.go`). This layer:
  - validates the optional query parameters `offset`, `limit`, `type_id` and `brewery_id`;
  - accumulates one message per broken field;
  - fills in the defaults offset 0 and limit 20;
  - calls the use case only when validation passes;
  - maps the domain page to the wire shape;
  - renders errors as a status code plus an error list (`handleError`).
- **Use case** (`list_sakes.go`). It clamps offset and limit again: a negative offset becomes 0, and a limit outside 1..100 becomes 20. It then passes the repository's result or error through unchanged.
- **Repository** (`sake_repository_impl.go`). It runs a count query, then a page query, then hydrates every row with three point lookups: sake type, brewery, and drink styles. Each failure is classified as NotFound or DatabaseError, and the first failing row aborts the whole call.
- **Error taxonomy** (`apperror/errors.go`). It provides coded errors with a fixed HTTP status, a `ValidationError` that holds a field→message map, and the unwrap chain that `errors.As` and `errors.Is` follow.

It also covers the range-checked integer conversions (`utils/safe_conv.go`).

Modules follow the Go packages:

- `Wrappers`: `Option` and `Result`.
- `SafeConv`: the conversions, with Go's fixed-width integers as subset types of `int`.
- `Errors`: the error taxonomy. Go's `error` interface becomes the datatype `Error`, which is one of:
  - an AppError;
  - a ValidationError;
  - a plain error;
  - a `%w` wrapper;
  - the driver's no-rows sentinel.
- `Entity` and `SakeRepositoryPort`: domain records and the repository port, which is a function type.
- `SakeRepositoryImpl`: the repository over a store snapshot. The `Store` datatype answers each query with rows or an error.
- `ListSakesUsecase`: the use case.
- `Presentation`: the HTTP adapter. A response is a datatype. An `Exchange` records whether the use case was called and with what input.
- `ListPipeline`: the three layers wired together, with end-to-end lemmas.

In `handleError`, the order in which Go's map iteration visits the validation fields is unspecified. It is a parameter `order`, constrained to list every field exactly once. The lemmas show that every such order renders as many entries as there are fields, and that any two orders render lists with the same entries (the same set of entries, not a proved permutation).

## Model

| member | source | states |
|---|---|---|
| SafeConv.IntToInt32 | internal/utils/safe_conv.go:10-15 | succeeds iff MinInt32 ≤ v ≤ MaxInt32 and then returns v; otherwise returns 0 with an int32 overflow error carrying v |
| SafeConv.Int64ToInt32 | internal/utils/safe_conv.go:19-24 | succeeds iff MinInt32 ≤ v ≤ MaxInt32 and then returns v; otherwise 0 with an int32 overflow error |
| SafeConv.IntToUint32 | internal/utils/safe_conv.go:27-32 | succeeds iff 0 ≤ v ≤ MaxUint32 and then returns v; otherwise 0 with a uint32 overflow error; every negative input fails |
| SafeConv.Int64ToUint32 | internal/utils/safe_conv.go:35-40 | succeeds iff 0 ≤ v ≤ MaxUint32 and then returns v; otherwise 0 with a uint32 overflow error; every negative input fails |
| SafeConv.NarrowingInvertsWidening | internal/utils/safe_conv.go:19-40 | every int32 and every uint32 survives widening to int64 and narrowing back |
| SafeConv.WideningInvertsNarrowing | internal/utils/safe_conv.go:19-40 | a successful narrowing, widened again, gives back the original int64 |
| Errors.ParseCode | internal/apperror/errors.go:10-20 | reading a wire code string gives back a code whose name is that string |
| Errors.CodeNamesRoundTrip | internal/apperror/errors.go:10-20 | the nine code strings are distinct and each reads back as its own code |
| Errors.BadRequestError | internal/apperror/errors.go:60-66 | code BAD_REQUEST, status 400, the given message, no details and no cause |
| Errors.NotFoundError | internal/apperror/errors.go:69-75 | code NOT_FOUND, status 404, the given message, no details and no cause |
| Errors.UnauthorizedError | internal/apperror/errors.go:78-84 | code UNAUTHORIZED, status 401, no details and no cause |
| Errors.ForbiddenError | internal/apperror/errors.go:87-93 | code FORBIDDEN, status 403, no details and no cause |
| Errors.ConflictError | internal/apperror/errors.go:96-102 | code CONFLICT, status 409, no details and no cause |
| Errors.InternalServerError | internal/apperror/errors.go:105-111 | code INTERNAL_ERROR, status 500, no details and no cause |
| Errors.DatabaseError | internal/apperror/errors.go:115-122 | code DATABASE_ERROR, status 500, and the given cause is what Unwrap returns |
| Errors.GroupAccessDeniedError | internal/apperror/errors.go:125-131 | code GROUP_ACCESS_DENIED, status 403, no details and no cause |
| Errors.ServerSideCodesAreExactly500 | internal/apperror/errors.go:59-131 | only InternalServerError and DatabaseError answer 500; every other constructor gives a 4xx status |
| Errors.WithDetails | internal/apperror/errors.go:45-51 | the key maps to the value, the detail map exists afterwards even if it was absent, other keys keep their values, and the other fields are unchanged |
| Errors.WithErr | internal/apperror/errors.go:54-57 | Unwrap now returns the new cause; code, message, status and details are unchanged |
| Errors.Unwrap | internal/apperror/errors.go:40-42 | the error one step down the chain is strictly smaller, so every chain is finite |
| Errors.AppErrorText | internal/apperror/errors.go:32-37 | renders "[CODE] message", followed by ": " and the cause's text when there is a cause; its contract is stated by Errors.AppErrorTextShape |
| Errors.ErrorText | internal/apperror/errors.go:140-142 | a ValidationError's text is its embedded AppError's text, and an AppError's text is as Errors.AppErrorTextShape states; stated by Errors.ErrorTextShape |
| Errors.ErrorTextShape | internal/apperror/errors.go:140-142 | a ValidationError renders exactly as its embedded AppError; a wrapped error renders as its prefix, ": ", then the inner error's text |
| Errors.AppErrorTextShape | internal/apperror/errors.go:32-37 | the text always starts with "[CODE] message", is exactly that prefix iff there is no cause, and otherwise is that prefix, ": " and the cause's text |
| Errors.ChainFollowsUnwrap | internal/apperror/errors.go:40-42 | consecutive chain entries are linked by Unwrap, and the chain ends where Unwrap gives nothing |
| Errors.As | internal/apperror/errors.go:168-174 | whatever As returns lies on the unwrap chain; that it is the first AppError there, and that nothing is returned iff there is none, is stated by Errors.AsFindsFirstAppError and Errors.AsNoneIffNoAppError |
| Errors.AsNoneIffNoAppError | internal/apperror/errors.go:168-174 | As finds nothing iff no AppError lies on the unwrap chain |
| Errors.AsFindsFirstAppError | internal/apperror/errors.go:168-174 | what As returns is the first AppError on the unwrap chain |
| Errors.IsNoRows | internal/features/sake/infrastructure/repository/sake_repository_impl.go:88 | true iff the no-rows sentinel occurs on the unwrap chain |
| Errors.NewValidationError | internal/apperror/errors.go:145-154 | code VALIDATION_ERROR, status 400, the given message, no cause, an empty field map and HasErrors false |
| Errors.AddField | internal/apperror/errors.go:157-160 | the field maps to the message, the key set grows by exactly that field, other fields keep their messages, and the embedded AppError is unchanged |
| Errors.AddFieldLastWins | internal/apperror/errors.go:157-160 | adding the same field twice keeps only the last message |
| Errors.AddFieldCommutes | internal/apperror/errors.go:157-160 | adding two different fields gives the same error in either order |
| Errors.HasErrors | internal/apperror/errors.go:163-165 | true iff the field map is non-empty, as stated by Errors.HasErrorsIffSomeField |
| Errors.HasErrorsIffSomeField | internal/apperror/errors.go:163-165 | HasErrors holds iff some field is recorded |
| SakeRepositoryImpl.ExtractCoordinates | internal/features/sake/infrastructure/repository/sake_repository_impl.go:155-160 | latitude and longitude are always absent, whatever the stored position |
| SakeRepositoryImpl.ConvertNumericToFloat32 | internal/features/sake/infrastructure/repository/sake_repository_impl.go:163-169 | an invalid numeric becomes 0; a valid one keeps its value |
| SakeRepositoryImpl.LookupFailure | internal/features/sake/infrastructure/repository/sake_repository_impl.go:86-107 | a failure with the no-rows sentinel on its chain becomes NotFound; any other failure becomes a DatabaseError that keeps the store error as its cause |
| SakeRepositoryImpl.ToDrinkStyles | internal/features/sake/infrastructure/repository/sake_repository_impl.go:118-125 | one drink style per row, in order, with id, name and description copied |
| SakeRepositoryImpl.ToSakeEntity | internal/features/sake/infrastructure/repository/sake_repository_impl.go:84-152 | the type, brewery and drink-style lookups run in order and the first failure decides the error; the call succeeds iff all three return rows, and the sake is then built from the row and the three lookup results; every failure is an AppError |
| SakeRepositoryImpl.DrinkStyleFailureIsNeverNotFound | internal/features/sake/infrastructure/repository/sake_repository_impl.go:110-116 | a failed drink-style lookup is always a DATABASE_ERROR, even for no-rows |
| SakeRepositoryImpl.HydrateAll | internal/features/sake/infrastructure/repository/sake_repository_impl.go:65-72 | a successful fold yields one sake per row; success iff every row hydrates, in order, is stated by SakeRepositoryImpl.HydrateAllSucceeds, and the first failure is stated by SakeRepositoryImpl.HydrateAllFailsAtFirstBadRow |
| SakeRepositoryImpl.HydrateAllSucceeds | internal/features/sake/infrastructure/repository/sake_repository_impl.go:65-72 | hydrating succeeds iff every row hydrates, and then gives exactly one sake per row, in row order |
| SakeRepositoryImpl.HydrateAllFailsAtFirstBadRow | internal/features/sake/infrastructure/repository/sake_repository_impl.go:66-72 | a failed hydration returns the error of the first failing row, and every earlier row hydrated |
| SakeRepositoryImpl.List | internal/features/sake/infrastructure/repository/sake_repository_impl.go:33-81 | a failed count gives a DatabaseError with the count message; a failed page query gives one with the list message; on success the total is the count and offset/limit echo the filter |
| SakeRepositoryImpl.ListHydratesEveryRow | internal/features/sake/infrastructure/repository/sake_repository_impl.go:64-80 | once both queries answer, List succeeds iff every page row hydrates, and returns one sake per row in page order |
| SakeRepositoryImpl.ListFailsAtFirstBadRow | internal/features/sake/infrastructure/repository/sake_repository_impl.go:64-72 | a broken row makes List fail with the first broken row's error, and no partial page is returned |
| SakeRepositoryImpl.ListErrorsAreAppErrors | internal/features/sake/infrastructure/repository/sake_repository_impl.go:41-72 | every error List returns is an AppError (NotFound or DatabaseError) |
| ListSakesUsecase.EffectiveOffset | internal/features/sake/application/usecase/list_sakes.go:47-49 | the result is never negative; it equals the input iff the input is ≥ 0, and is 0 otherwise |
| ListSakesUsecase.EffectiveLimit | internal/features/sake/application/usecase/list_sakes.go:50-52 | the result is in 1..100; it equals the input iff the input is in 1..100, and is 20 otherwise |
| ListSakesUsecase.RepositoryFilter | internal/features/sake/application/usecase/list_sakes.go:46-60 | the filter always has offset ≥ 0 and 1 ≤ limit ≤ 100, and passes type and brewery IDs through unchanged, present or absent |
| ListSakesUsecase.Execute | internal/features/sake/application/usecase/list_sakes.go:43-69 | a repository error comes back unchanged with no output; on success the output's sakes and pagination are exactly the repository's |
| ListSakesUsecase.NormalisationIsIdempotent | internal/features/sake/application/usecase/list_sakes.go:47-52 | clamping an already clamped input changes nothing |
| ListSakesUsecase.InRangeInputIsUntouched | internal/features/sake/application/usecase/list_sakes.go:47-52 | an input reaches the repository unchanged iff its offset and limit are already in range |
| Presentation.FieldNamed | internal/features/sake/presentation/server_impl.go:77-99 | a wire name maps back to the field it names, and nothing is found for any other name |
| Presentation.FieldNameRoundTrip | internal/features/sake/presentation/server_impl.go:77-99 | every validated field is found again by its wire name |
| Presentation.AnyViolatedIffSomeField | internal/features/sake/presentation/server_impl.go:77-99 | the four spelled-out rules fail together iff some field breaks its rule |
| Presentation.CheckEffect | internal/features/sake/presentation/server_impl.go:77-81 | one check records its own field iff the field is broken, and leaves every other key and the embedded AppError as they were |
| Presentation.CheckAllAtField | internal/features/sake/presentation/server_impl.go:77-99 | after all four checks, a field's name is recorded iff that field is broken, and then with its own message; later checks do not stop or erase earlier ones |
| Presentation.CheckAllKeys | internal/features/sake/presentation/server_impl.go:77-99 | every recorded key is the wire name of a broken field |
| Presentation.CheckAll | internal/features/sake/presentation/server_impl.go:73-99 | the four checks in source order, all run; the resulting map is stated by Presentation.CheckAllRecordsExactlyViolations and Presentation.CheckAllAtField |
| Presentation.CheckAllRecordsExactlyViolations | internal/features/sake/presentation/server_impl.go:73-99 | the accumulated map holds exactly the broken fields, each with its own message, and only the four wire names |
| Presentation.CheckAllHasErrorsIffViolation | internal/features/sake/presentation/server_impl.go:101-104 | the accumulated error has entries iff some field is broken |
| Presentation.ValidateListSakesParams | internal/features/sake/presentation/server_impl.go:72-105 | no error iff no present field breaks its rule (offset ≥ 0, 1 ≤ limit ≤ 100, type_id ≥ 1, brewery_id ≥ 1); otherwise a VALIDATION_ERROR with status 400 whose fields are exactly the broken ones, each with its message |
| Presentation.AbsentParamsAreValid | internal/features/sake/presentation/server_impl.go:72-105 | a request without parameters always passes validation |
| Presentation.UsecaseInput | internal/features/sake/presentation/server_impl.go:43-60 | the use case gets the given offset or 0, the given limit or 20, and the type and brewery IDs unchanged |
| Presentation.ToDrinkStyleResponses | internal/features/sake/presentation/server_impl.go:168-175 | one wire drink style per drink style, same order, id/name/description copied |
| Presentation.ToSakeResponse | internal/features/sake/presentation/server_impl.go:167-199 | id, name, abv, taste notes, memo (present or absent), origin region, type and brewery ids are kept, and the drink styles keep their length, order and fields |
| Presentation.SakeResponseRoundTrip | internal/features/sake/presentation/server_impl.go:167-199 | the wire mapping loses nothing: reading a wire sake back gives the original sake, and the other way round |
| Presentation.ToSakeResponses | internal/features/sake/presentation/server_impl.go:148-151 | one wire sake per sake, in order |
| Presentation.ToListSakesResponse | internal/features/sake/presentation/server_impl.go:147-164 | the data has the output's length and order, each item reads back as its sake, and meta total/offset/limit copy the pagination |
| Presentation.EnumerationLength | internal/features/sake/presentation/server_impl.go:206-207 | a duplicate-free listing of the field map's keys is exactly as long as the map |
| Presentation.FieldErrors | internal/features/sake/presentation/server_impl.go:206-212 | entry i is coded with the error's code and reads "field: message" for the i-th visited field |
| Presentation.FieldErrorsCount | internal/features/sake/presentation/server_impl.go:206-212 | as many entries as fields, all carrying the error's code |
| Presentation.FieldErrorsCoverFields | internal/features/sake/presentation/server_impl.go:207-212 | every field has its "field: message" entry |
| Presentation.FieldErrorsFromFields | internal/features/sake/presentation/server_impl.go:207-212 | every entry is "field: message" for some recorded field |
| Presentation.FieldErrorsOrderIndependent | internal/features/sake/presentation/server_impl.go:207-212 | any two iteration orders give lists of the same length with the same entries (as sets; multiplicities are not compared) |
| Presentation.HandleError | internal/features/sake/presentation/server_impl.go:202-247 | a ValidationError answers with its status and one entry per field; otherwise the first AppError on the chain answers with its status, code and message; anything else is a 500 INTERNAL_ERROR with the fixed message |
| Presentation.WrappedAppErrorKeepsStatus | internal/features/sake/presentation/server_impl.go:220-234 | an AppError found through `%w` wrappers answers with its own status, code and message, and the wrapper adds nothing |
| Presentation.WrappedValidationErrorIsInternal | internal/features/sake/presentation/server_impl.go:203-247 | a ValidationError whose embedded AppError has no cause, hidden behind a `%w` wrapper, is not recognised and answers 500 INTERNAL_ERROR (with a cause, `Presentation.WrappedAppErrorKeepsStatus` applies to whatever AppError the cause chain holds) |
| Presentation.ListSakes | internal/features/sake/presentation/server_impl.go:33-69 | the use case is not called iff some field is broken, and the answer is then a 400 with one to four VALIDATION_ERROR entries; otherwise it is called with the defaulted input, and its output answers 200 with the mapped list while its error goes through handleError |
| Presentation.RejectionResponse | internal/features/sake/presentation/server_impl.go:38-41 | a validation failure renders as status 400 with between one and four entries, all coded VALIDATION_ERROR |
| Presentation.RejectedRequestIgnoresUsecase | internal/features/sake/presentation/server_impl.go:37-41 | when validation fails, any two use cases give the same exchange, and neither is called |
| ListPipeline.RequestFilter | internal/features/sake/presentation/server_impl.go:43-60 | the filter of a valid request is the given values, or offset 0 and limit 20 when absent |
| ListPipeline.ValidatedRequestIsNeverClamped | internal/features/sake/application/usecase/list_sakes.go:46-60 | a request that passes validation reaches the repository exactly as given, with defaults filled in, and is never clamped |
| ListPipeline.Serve | internal/features/sake/presentation/server_impl.go:33-69 | the use case runs iff no field is broken; the store then sees the request's filter, a successful List answers 200 with its page, and a failed one answers with that AppError's status, code and message |
| ListPipeline.CountMayDisagreeWithPage | internal/features/sake/infrastructure/repository/sake_repository_impl.go:37-56 | count and page are separate queries: for a request with no parameters, a count of 0 beside a one-row page whose row hydrates is served as 200 with total 0 and one entry |
| ListPipeline.EmptyCatalogue | internal/features/sake/presentation/server_impl.go:43-68 | no parameters and an empty store answer 200 with no data and meta total 0, offset 0, limit 20 |
| ListPipeline.ServedMetaMatchesStore | internal/features/sake/infrastructure/repository/sake_repository_impl.go:74-78 | a 200 answer's meta total is the store's count, and its offset and limit are the request's |
| ListPipeline.ListFailureStatus | internal/features/sake/infrastructure/repository/sake_repository_impl.go:41-116 | a failed List is either NOT_FOUND with 404 or DATABASE_ERROR with 500 |
| ListPipeline.CountFailureAnswers500 | internal/features/sake/infrastructure/repository/sake_repository_impl.go:41-47 | a failed count answers 500 DATABASE_ERROR with the count message, and the store's error text is not shown |
| ListPipeline.HydrationFailureIsNeverPartial | internal/features/sake/infrastructure/repository/sake_repository_impl.go:66-72 | if any page row is broken, the answer is a single error entry, namely that of a broken row at or before it all of whose predecessors hydrated (the first broken row), and never part of the page |
| ListPipeline.NegativeOffsetIsRejected | internal/features/sake/presentation/server_impl.go:77-81 | a negative offset is refused with 400 before the use case runs, and the answer carries the "offset: …" entry |

## Left out

- HTTP binding and JSON: gin routing, query-string parsing, JSON encoding and the generated OpenAPI types. Parameters are a record of `Option` values, and responses are datatypes.
- SQL and the database driver: the SQL text, pgx/pgtype and the sqlc queries. The store is an oracle that answers each query with rows or an error. The drink-style order the SQL imposes (by id) is taken as given.
- Concurrent writes between the count query and the page query. The store's count and page answers are independent functions with no constraint between them, so the model admits a total that disagrees with the page it accompanies (`ListPipeline.CountMayDisagreeWithPage` serves, for a request with no parameters, a count of 0 beside a one-row page whose row hydrates). This is the inconsistency the source accepts under concurrent writes. Nothing here promises that they agree.
- `Execute` and `List` take no `context.Context`: cancellation and deadlines are out of scope.
- Logging, and `TraceMethodAuto`, which do not affect results.
- Configuration, connection bootstrap, server wiring, middleware and `main`.
- The commented-out manual validator in `server_impl.go`, which is not live code.
- `NewSakeServerImpl`, `NewListSakesUsecase` and `NewSakeRepository`: these constructors only store their dependency. The dependency is passed as a function value instead.
- Timestamps are opaque integers.
- SakeRepositoryImpl.ConvertNumericToFloat32: a valid numeric keeps its exact value as a `real`. The rounding to float32 is not modelled.
- SakeRepositoryImpl.ExtractCoordinates: the source does not parse geometry either. The geometry's bytes are kept but never read.
- SafeConv.IntToInt32: Go's `int` is taken to be 64 bits wide, so `IntToInt32` and `Int64ToInt32` (and the two unsigned conversions) share one domain. The overflow error is the value `Overflow(value, width)`, not its formatted text.
- Errors.DatabaseError: Go's `Code` field is any string. Here it is one of the nine constants, which are the only codes the constructors create. A nil cause (`DatabaseError(msg, nil)`, `WithErr(nil)`) cannot be expressed either, because the cause parameter is a non-optional `Error`. The core never does either.
- Errors.WithDetails: detail values are strings rather than `interface{}`. The Go method mutates the receiver and returns the same pointer. Here it returns a new value, so aliasing effects are not modelled.
- Errors.AddField: the Go method mutates the shared field map in place. Here it returns a new value, so aliasing effects are not modelled.
- Presentation.FieldErrors: Go's map iteration order is a parameter, constrained to list each field exactly once. `FieldErrorsOrderIndependent` shows that the number of rendered entries and the set of entries do not depend on it. It does not state a multiset permutation.
- Errors.ErrorText: the text of a plain error and of the no-rows sentinel is taken as given. Only the AppError format is stated.

## Notes on the source

- `handleError` recognises a validation error by its dynamic type, not through `errors.As`. A ValidationError wrapped with `%w` is therefore missed by the first branch. `As` skips it as well: a `*ValidationError` is not a `*AppError`, and its promoted `Unwrap` returns the embedded AppError's cause, which is empty for every ValidationError that `NewValidationError` builds. So such an error renders as 500 INTERNAL_ERROR (`Presentation.WrappedValidationErrorIsInternal`). The error policy maps validation errors to 400, but the code does so only for an unwrapped one, and this model follows the code. The pipeline never wraps its validation error, so requests are not affected.
- The use case's clamping of offset and limit is unreachable from the HTTP adapter. Validation already rejects every value the use case would change (`ListPipeline.ValidatedRequestIsNeverClamped`).

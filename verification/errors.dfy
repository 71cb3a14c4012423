/** The application's error taxonomy: coded errors with an HTTP status,
    field-level validation errors, and the Go `error` values they travel
    among (plain errors, `%w` wrappers and the driver's no-rows sentinel),
    together with the unwrap chain that `errors.As` and `errors.Is` walk. */
module Errors {
  import opened Wrappers

  // HTTP status codes used by the taxonomy.
  const StatusBadRequest: int := 400
  const StatusUnauthorized: int := 401
  const StatusForbidden: int := 403
  const StatusNotFound: int := 404
  const StatusConflict: int := 409
  const StatusInternalServerError: int := 500

  /** The closed enumeration of error codes; `Name` is the wire string. */
  datatype ErrorCode =
    | CodeBadRequest
    | CodeNotFound
    | CodeUnauthorized
    | CodeForbidden
    | CodeConflict
    | CodeInternalError
    | CodeDatabaseError
    | CodeValidationError
    | CodeGroupAccessDenied
  {
    function Name(): string {
      match this
      case CodeBadRequest => "BAD_REQUEST"
      case CodeNotFound => "NOT_FOUND"
      case CodeUnauthorized => "UNAUTHORIZED"
      case CodeForbidden => "FORBIDDEN"
      case CodeConflict => "CONFLICT"
      case CodeInternalError => "INTERNAL_ERROR"
      case CodeDatabaseError => "DATABASE_ERROR"
      case CodeValidationError => "VALIDATION_ERROR"
      case CodeGroupAccessDenied => "GROUP_ACCESS_DENIED"
    }
  }

  /** Reads a wire string back into a code; the inverse of `Name`. */
  function ParseCode(s: string): (r: Option<ErrorCode>)
    ensures r.Some? ==> r.value.Name() == s
  {
    if s == "BAD_REQUEST" then Some(CodeBadRequest)
    else if s == "NOT_FOUND" then Some(CodeNotFound)
    else if s == "UNAUTHORIZED" then Some(CodeUnauthorized)
    else if s == "FORBIDDEN" then Some(CodeForbidden)
    else if s == "CONFLICT" then Some(CodeConflict)
    else if s == "INTERNAL_ERROR" then Some(CodeInternalError)
    else if s == "DATABASE_ERROR" then Some(CodeDatabaseError)
    else if s == "VALIDATION_ERROR" then Some(CodeValidationError)
    else if s == "GROUP_ACCESS_DENIED" then Some(CodeGroupAccessDenied)
    else None
  }

  /** Every code's wire string parses back to that code, so no two codes
      share a wire string. */
  lemma CodeNamesRoundTrip(c: ErrorCode)
    ensures ParseCode(c.Name()) == Some(c)
  {
  }

  /** A coded application error. `details` is absent until the first
      `WithDetails`; `cause` is the wrapped error, if any. Detail values
      (Go `interface{}`) are kept as their string form. */
  datatype AppError = AppError(
    code: ErrorCode,
    message: string,
    status: int,
    details: Option<map<string, string>>,
    cause: Option<Error>)

  /** A validation error: an `AppError` plus a field -> message map. */
  datatype ValidationError = ValidationError(base: AppError, fields: map<string, string>)

  /** A Go `error` value as the core meets it. */
  datatype Error =
    | App(app: AppError)                      // *AppError
    | Validation(validation: ValidationError) // *ValidationError
    | Plain(text: string)                     // errors.New / fmt.Errorf without %w
    | Wrapped(prefix: string, inner: Error)   // fmt.Errorf("<prefix>: %w", inner)
    | NoRows                                  // the driver's no-rows sentinel

  // ---------------------------------------------------------------------
  // Constructors: each fixes its code and status and carries no cause,
  // except DatabaseError, which keeps the store's error as its cause.

  function BadRequestError(message: string): (r: AppError)
    ensures r.code == CodeBadRequest && r.status == 400
    ensures r.message == message && r.cause.None? && r.details.None?
  {
    AppError(CodeBadRequest, message, StatusBadRequest, None, None)
  }

  function NotFoundError(message: string): (r: AppError)
    ensures r.code == CodeNotFound && r.status == 404
    ensures r.message == message && r.cause.None? && r.details.None?
  {
    AppError(CodeNotFound, message, StatusNotFound, None, None)
  }

  function UnauthorizedError(message: string): (r: AppError)
    ensures r.code == CodeUnauthorized && r.status == 401
    ensures r.message == message && r.cause.None? && r.details.None?
  {
    AppError(CodeUnauthorized, message, StatusUnauthorized, None, None)
  }

  function ForbiddenError(message: string): (r: AppError)
    ensures r.code == CodeForbidden && r.status == 403
    ensures r.message == message && r.cause.None? && r.details.None?
  {
    AppError(CodeForbidden, message, StatusForbidden, None, None)
  }

  function ConflictError(message: string): (r: AppError)
    ensures r.code == CodeConflict && r.status == 409
    ensures r.message == message && r.cause.None? && r.details.None?
  {
    AppError(CodeConflict, message, StatusConflict, None, None)
  }

  function InternalServerError(message: string): (r: AppError)
    ensures r.code == CodeInternalError && r.status == 500
    ensures r.message == message && r.cause.None? && r.details.None?
  {
    AppError(CodeInternalError, message, StatusInternalServerError, None, None)
  }

  function DatabaseError(message: string, err: Error): (r: AppError)
    ensures r.code == CodeDatabaseError && r.status == 500
    ensures r.message == message && r.details.None?
    ensures Unwrap(App(r)) == Some(err)
  {
    AppError(CodeDatabaseError, message, StatusInternalServerError, None, Some(err))
  }

  function GroupAccessDeniedError(message: string): (r: AppError)
    ensures r.code == CodeGroupAccessDenied && r.status == 403
    ensures r.message == message && r.cause.None? && r.details.None?
  {
    AppError(CodeGroupAccessDenied, message, StatusForbidden, None, None)
  }

  /** Only the two server-side codes map to a 5xx status; every other
      constructor yields a client error. */
  lemma ServerSideCodesAreExactly500(message: string, err: Error)
    ensures BadRequestError(message).status / 100 == 4
    ensures NotFoundError(message).status / 100 == 4
    ensures UnauthorizedError(message).status / 100 == 4
    ensures ForbiddenError(message).status / 100 == 4
    ensures ConflictError(message).status / 100 == 4
    ensures GroupAccessDeniedError(message).status / 100 == 4
    ensures InternalServerError(message).status == DatabaseError(message, err).status == 500
  {
  }

  // ---------------------------------------------------------------------
  // Methods of AppError.

  /** `WithDetails(key, value)`: creates the detail map when absent, sets
      one key and leaves everything else as it was. */
  function WithDetails(e: AppError, key: string, value: string): (r: AppError)
    ensures r.details.Some? && key in r.details.value && r.details.value[key] == value
    ensures forall k :: k != key ==>
              (k in r.details.value <==> e.details.Some? && k in e.details.value)
    ensures forall k :: k != key && k in r.details.value ==> r.details.value[k] == e.details.value[k]
    ensures r.code == e.code && r.message == e.message && r.status == e.status && r.cause == e.cause
  {
    var current := e.details.GetOr(map[]);
    e.(details := Some(current[key := value]))
  }

  /** `WithErr(err)`: replaces the wrapped cause and nothing else. */
  function WithErr(e: AppError, err: Error): (r: AppError)
    ensures Unwrap(App(r)) == Some(err)
    ensures r.code == e.code && r.message == e.message && r.status == e.status && r.details == e.details
  {
    e.(cause := Some(err))
  }

  /** `Unwrap`: the next error down the chain. An AppError yields its cause;
      a ValidationError inherits that method from its embedded AppError;
      a `%w` wrapper yields its operand; plain errors and the sentinel end
      the chain. */
  function Unwrap(e: Error): (r: Option<Error>)
    ensures r.Some? ==> r.value < e
  {
    match e
    case App(a) => a.cause
    case Validation(v) => v.base.cause
    case Wrapped(_, inner) => Some(inner)
    case Plain(_) => None
    case NoRows => None
  }

  // ---------------------------------------------------------------------
  // Rendering (`Error()`).

  /** `"[CODE] message: cause"` when a cause exists, `"[CODE] message"` otherwise. */
  function AppErrorText(a: AppError): string
    decreases a, 1
  {
    var head := "[" + a.code.Name() + "] " + a.message;
    match a.cause
    case Some(c) => head + ": " + ErrorText(c)
    case None => head
  }

  /** The text Go's `err.Error()` returns. */
  function ErrorText(e: Error): string
    decreases e, 0
  {
    match e
    case App(a) => AppErrorText(a)
    case Validation(v) => AppErrorText(v.base)
    case Plain(t) => t
    case Wrapped(p, inner) => p + ": " + ErrorText(inner)
    case NoRows => "no rows in result set"
  }

  /** The rendered text always starts with `[CODE] message`, and it is exactly
      that prefix iff the error has no cause. */
  lemma AppErrorTextShape(a: AppError)
    ensures var head := "[" + a.code.Name() + "] " + a.message;
            && head <= AppErrorText(a)
            && (AppErrorText(a) == head <==> a.cause.None?)
            && (a.cause.Some? ==> AppErrorText(a) == head + ": " + ErrorText(a.cause.value))
  {
    var head := "[" + a.code.Name() + "] " + a.message;
    if a.cause.Some? {
      var t := AppErrorText(a);
      assert t == head + (": " + ErrorText(a.cause.value));
      assert |t| > |head|;
    }
  }

  /** A ValidationError renders exactly as its embedded AppError, and a
      wrapped error renders as its prefix, `": "`, then the inner text. */
  lemma ErrorTextShape(e: Error)
    ensures e.Validation? ==> ErrorText(e) == ErrorText(App(e.validation.base))
    ensures e.Wrapped? ==> e.prefix + ": " <= ErrorText(e)
    ensures e.Wrapped? ==> ErrorText(e)[|e.prefix| + 2..] == ErrorText(e.inner)
  {
  }

  // ---------------------------------------------------------------------
  // The unwrap chain, errors.As and errors.Is.

  /** The errors reachable by repeated `Unwrap`, starting with `e` itself. */
  function Chain(e: Error): (c: seq<Error>)
    ensures |c| >= 1 && c[0] == e
    decreases e
  {
    match Unwrap(e)
    case None => [e]
    case Some(next) => [e] + Chain(next)
  }

  /** Consecutive chain entries are linked by `Unwrap`, and the chain ends
      exactly where `Unwrap` finds nothing more. */
  lemma {:induction false} ChainFollowsUnwrap(e: Error)
    ensures forall i :: 0 <= i < |Chain(e)| - 1 ==> Unwrap(Chain(e)[i]) == Some(Chain(e)[i + 1])
    ensures Unwrap(Chain(e)[|Chain(e)| - 1]).None?
    decreases e
  {
    var c := Chain(e);
    match Unwrap(e)
    case None =>
    case Some(next) =>
      ChainFollowsUnwrap(next);
      var cn := Chain(next);
      assert c == [e] + cn;
      forall i | 0 <= i < |c| - 1 ensures Unwrap(c[i]) == Some(c[i + 1]) {
        assert c[i + 1] == cn[i];
        if i > 0 { assert c[i] == cn[i - 1]; }
      }
      assert c[|c| - 1] == cn[|cn| - 1];
  }

  /** `apperror.As`: the first `*AppError` along the chain, if any. A
      `*ValidationError` is a different Go type and is not matched. */
  function As(e: Error): (r: Option<AppError>)
    ensures r.Some? ==> App(r.value) in Chain(e)
    decreases e
  {
    if e.App? then Some(e.app)
    else match Unwrap(e)
      case None => None
      case Some(next) => As(next)
  }

  /** Unwrapping one step moves the chain along by one entry. */
  lemma ChainStep(e: Error, next: Error)
    requires Unwrap(e) == Some(next)
    ensures Chain(e) == [e] + Chain(next)
    ensures forall k :: 0 <= k < |Chain(next)| ==> Chain(e)[k + 1] == Chain(next)[k]
  {
  }

  /** `As` finds nothing iff no AppError lies on the chain. */
  lemma {:induction false} AsNoneIffNoAppError(e: Error)
    ensures As(e).None? <==> forall i :: 0 <= i < |Chain(e)| ==> !Chain(e)[i].App?
    decreases e
  {
    assert Chain(e)[0] == e;
    if !e.App? && Unwrap(e).Some? {
      var next := Unwrap(e).value;
      AsNoneIffNoAppError(next);
      ChainStep(e, next);
      assert As(e) == As(next);
      if As(e).None? {
        forall i | 0 <= i < |Chain(e)| ensures !Chain(e)[i].App? {
          if i > 0 { assert Chain(e)[i] == Chain(next)[i - 1]; }
        }
      } else {
        var k :| 0 <= k < |Chain(next)| && Chain(next)[k].App?;
        assert Chain(e)[k + 1].App?;
      }
    } else if !e.App? {
      assert Chain(e) == [e];
    } else {
      assert As(e) == Some(e.app);
      assert Chain(e)[0].App?;
      assert !(forall i :: 0 <= i < |Chain(e)| ==> !Chain(e)[i].App?);
    }
  }

  /** What `As` finds is the first AppError on the chain. */
  lemma {:induction false} AsFindsFirstAppError(e: Error)
    requires As(e).Some?
    ensures exists i :: 0 <= i < |Chain(e)| && Chain(e)[i] == App(As(e).value)
                        && forall j :: 0 <= j < i ==> !Chain(e)[j].App?
    decreases e
  {
    if e.App? {
      assert Chain(e)[0] == App(As(e).value);
    } else {
      var next := Unwrap(e).value;
      AsFindsFirstAppError(next);
      ChainStep(e, next);
      assert As(e) == As(next);
      var i :| 0 <= i < |Chain(next)| && Chain(next)[i] == App(As(next).value)
               && forall j :: 0 <= j < i ==> !Chain(next)[j].App?;
      assert Chain(e)[i + 1] == App(As(e).value);
      forall j | 0 <= j < i + 1 ensures !Chain(e)[j].App? {
        if j > 0 { assert Chain(e)[j] == Chain(next)[j - 1]; }
      }
    }
  }

  /** `errors.Is(err, pgx.ErrNoRows)`: the sentinel occurs along the chain. */
  function IsNoRows(e: Error): (r: bool)
    ensures r <==> NoRows in Chain(e)
    decreases e
  {
    e == NoRows || (Unwrap(e).Some? && IsNoRows(Unwrap(e).value))
  }

  // ---------------------------------------------------------------------
  // ValidationError.

  /** A validation error with code VALIDATION_ERROR, status 400 and no fields. */
  function NewValidationError(message: string): (r: ValidationError)
    ensures r.base.code == CodeValidationError && r.base.status == 400
    ensures r.base.message == message && r.base.cause.None?
    ensures r.fields == map[] && !HasErrors(r)
  {
    ValidationError(AppError(CodeValidationError, message, StatusBadRequest, None, None), map[])
  }

  /** `AddField(field, message)`: records the message for one field; other
      fields and the embedded AppError are untouched. */
  function AddField(v: ValidationError, field: string, message: string): (r: ValidationError)
    ensures field in r.fields && r.fields[field] == message
    ensures r.fields.Keys == v.fields.Keys + {field}
    ensures forall k :: k in v.fields && k != field ==> r.fields[k] == v.fields[k]
    ensures r.base == v.base
  {
    v.(fields := v.fields[field := message])
  }

  /** Adding the same field twice keeps only the last message. */
  lemma AddFieldLastWins(v: ValidationError, field: string, m1: string, m2: string)
    ensures AddField(AddField(v, field, m1), field, m2) == AddField(v, field, m2)
  {
  }

  /** Fields for distinct names can be added in either order. */
  lemma AddFieldCommutes(v: ValidationError, f1: string, m1: string, f2: string, m2: string)
    requires f1 != f2
    ensures AddField(AddField(v, f1, m1), f2, m2) == AddField(AddField(v, f2, m2), f1, m1)
  {
  }

  /** True iff at least one field carries an error. */
  predicate HasErrors(v: ValidationError)
  {
    |v.fields| > 0
  }

  lemma HasErrorsIffSomeField(v: ValidationError)
    ensures HasErrors(v) <==> exists f :: f in v.fields
  {
    if !HasErrors(v) {
      assert v.fields == map[];
    } else {
      var f :| f in v.fields.Keys;
    }
  }
}

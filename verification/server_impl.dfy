/** The HTTP presentation adapter for `GET /sakes`: validates the optional
    query parameters, fills in defaults, calls the use case only when
    validation passes, maps the domain page to the wire shape, and turns
    errors into a status code plus an error list. Query-string binding and
    JSON encoding are left to the caller; the response is a datatype. */
module Presentation {
  import opened Wrappers
  import opened SafeConv
  import opened Entity
  import opened Errors
  import opened ListSakesUsecase

  const StatusOK: int := 200

  const DefaultOffset: Int32 := 0

  const MsgInvalidParams := "リクエストパラメータが不正です"
  const MsgInternalError := "内部エラーが発生しました"

  /** The bound query parameters; each may be absent. */
  datatype ListSakesParams = ListSakesParams(
    typeId: Option<Int32>,
    breweryId: Option<Int32>,
    offset: Option<Int32>,
    limit: Option<Int32>)

  /** The four validated parameters, with their wire names, messages and rules. */
  datatype Field = OffsetField | LimitField | TypeIdField | BreweryIdField
  {
    function Name(): string {
      match this
      case OffsetField => "offset"
      case LimitField => "limit"
      case TypeIdField => "type_id"
      case BreweryIdField => "brewery_id"
    }

    function Message(): string {
      match this
      case OffsetField => "オフセットは0以上である必要があります"
      case LimitField => "取得件数は1以上100以下である必要があります"
      case TypeIdField => "酒の種類IDは1以上である必要があります"
      case BreweryIdField => "酒造IDは1以上である必要があります"
    }

    /** The parameter's value, if given. */
    function Value(p: ListSakesParams): Option<Int32> {
      match this
      case OffsetField => p.offset
      case LimitField => p.limit
      case TypeIdField => p.typeId
      case BreweryIdField => p.breweryId
    }

    /** The rule a present value must meet. */
    predicate Accepts(x: int) {
      match this
      case OffsetField => x >= 0
      case LimitField => 1 <= x <= 100
      case TypeIdField => x >= 1
      case BreweryIdField => x >= 1
    }

    /** Broken iff the parameter is present and fails its rule. */
    predicate Violated(p: ListSakesParams) {
      Value(p).Some? && !Accepts(Value(p).value)
    }
  }

  /** The wire names of the four validated parameters. */
  const FieldNames: set<string> := {"offset", "limit", "type_id", "brewery_id"}

  /** The field a wire name belongs to, if any: the inverse of `Field.Name`. */
  function FieldNamed(k: string): (r: Option<Field>)
    ensures r.Some? ==> r.value.Name() == k
    ensures r.None? <==> k !in FieldNames
  {
    if k == "offset" then Some(OffsetField)
    else if k == "limit" then Some(LimitField)
    else if k == "type_id" then Some(TypeIdField)
    else if k == "brewery_id" then Some(BreweryIdField)
    else None
  }

  /** Every field is found again by its wire name. */
  lemma FieldNameRoundTrip(f: Field)
    ensures f.Name() in FieldNames
    ensures FieldNamed(f.Name()) == Some(f)
  {
  }

  /** Some field is broken (the four rules, spelled out). */
  predicate AnyViolated(p: ListSakesParams)
  {
    OffsetField.Violated(p) || LimitField.Violated(p) ||
    TypeIdField.Violated(p) || BreweryIdField.Violated(p)
  }

  lemma AnyViolatedIffSomeField(p: ListSakesParams)
    ensures AnyViolated(p) <==> exists f: Field :: f.Violated(p)
  {
    if exists f: Field :: f.Violated(p) {
      var f: Field :| f.Violated(p);
      match f
      case OffsetField =>
      case LimitField =>
      case TypeIdField =>
      case BreweryIdField =>
    }
  }

  /** Records a field error when the field is broken; otherwise no change. */
  function Check(v: ValidationError, f: Field, p: ListSakesParams): (r: ValidationError)
  {
    if f.Violated(p) then AddField(v, f.Name(), f.Message()) else v
  }

  /** All four checks, in source order, starting from an empty error. */
  function CheckAll(p: ListSakesParams): ValidationError
  {
    var v := NewValidationError(MsgInvalidParams);
    var v := Check(v, OffsetField, p);
    var v := Check(v, LimitField, p);
    var v := Check(v, TypeIdField, p);
    Check(v, BreweryIdField, p)
  }

  /** A check records its own field iff broken, and touches no other key. */
  lemma CheckEffect(v: ValidationError, f: Field, p: ListSakesParams, k: string)
    ensures Check(v, f, p).base == v.base
    ensures k == f.Name() ==>
              (k in Check(v, f, p).fields <==> k in v.fields || f.Violated(p))
    ensures k == f.Name() && f.Violated(p) ==> Check(v, f, p).fields[k] == f.Message()
    ensures k != f.Name() ==> (k in Check(v, f, p).fields <==> k in v.fields)
    ensures k != f.Name() && k in v.fields ==> Check(v, f, p).fields[k] == v.fields[k]
  {
  }

  /** One field followed through the four checks: its name is recorded iff
      it is broken, and then with its own message. */
  lemma CheckAllAtField(p: ListSakesParams, f: Field)
    ensures f.Name() in CheckAll(p).fields <==> f.Violated(p)
    ensures f.Violated(p) ==> CheckAll(p).fields[f.Name()] == f.Message()
  {
    var k := f.Name();
    var v0 := NewValidationError(MsgInvalidParams);
    var v1 := Check(v0, OffsetField, p);
    var v2 := Check(v1, LimitField, p);
    var v3 := Check(v2, TypeIdField, p);
    var v4 := Check(v3, BreweryIdField, p);
    assert v4 == CheckAll(p);
    CheckEffect(v0, OffsetField, p, k);
    CheckEffect(v1, LimitField, p, k);
    CheckEffect(v2, TypeIdField, p, k);
    CheckEffect(v3, BreweryIdField, p, k);
    NameLength(f);
    NameLength(OffsetField);
    NameLength(LimitField);
    NameLength(TypeIdField);
    NameLength(BreweryIdField);
  }

  /** The four wire names have four different lengths, which tells them apart. */
  lemma NameLength(f: Field)
    ensures |f.Name()| == match f
                         case OffsetField => 6
                         case LimitField => 5
                         case TypeIdField => 7
                         case BreweryIdField => 10
  {
  }

  /** Nothing but the four wire names is ever recorded, and a recorded name
      is that of a broken field. */
  lemma CheckAllKeys(p: ListSakesParams, k: string)
    requires k in CheckAll(p).fields
    ensures FieldNamed(k).Some? && FieldNamed(k).value.Violated(p)
  {
    var v0 := NewValidationError(MsgInvalidParams);
    var v1 := Check(v0, OffsetField, p);
    var v2 := Check(v1, LimitField, p);
    var v3 := Check(v2, TypeIdField, p);
    var v4 := Check(v3, BreweryIdField, p);
    assert v4 == CheckAll(p);
    CheckEffect(v0, OffsetField, p, k);
    CheckEffect(v1, LimitField, p, k);
    CheckEffect(v2, TypeIdField, p, k);
    CheckEffect(v3, BreweryIdField, p, k);
    CheckAllAtField(p, FieldNamed(k).value);
  }

  /** The checks leave the embedded AppError as `NewValidationError` made it. */
  lemma CheckAllBase(p: ListSakesParams)
    ensures CheckAll(p).base == NewValidationError(MsgInvalidParams).base
  {
    var v0 := NewValidationError(MsgInvalidParams);
    CheckEffect(v0, OffsetField, p, "");
    CheckEffect(Check(v0, OffsetField, p), LimitField, p, "");
    CheckEffect(Check(Check(v0, OffsetField, p), LimitField, p), TypeIdField, p, "");
    CheckEffect(Check(Check(Check(v0, OffsetField, p), LimitField, p), TypeIdField, p), BreweryIdField, p, "");
  }

  /** The accumulated field map holds exactly the broken fields, each with
      its own message, and nothing else. */
  lemma CheckAllRecordsExactlyViolations(p: ListSakesParams)
    ensures forall f: Field :: f.Name() in CheckAll(p).fields <==> f.Violated(p)
    ensures forall f: Field :: f.Violated(p) ==> CheckAll(p).fields[f.Name()] == f.Message()
    ensures CheckAll(p).fields.Keys <= FieldNames
    ensures CheckAll(p).base == NewValidationError(MsgInvalidParams).base
  {
    forall f: Field
      ensures f.Name() in CheckAll(p).fields <==> f.Violated(p)
      ensures f.Violated(p) ==> CheckAll(p).fields[f.Name()] == f.Message()
    {
      CheckAllAtField(p, f);
    }
    forall k | k in CheckAll(p).fields ensures k in FieldNames {
      CheckAllKeys(p, k);
    }
    CheckAllBase(p);
  }

  /** Some field is broken iff the accumulated error has entries. */
  lemma CheckAllHasErrorsIffViolation(p: ListSakesParams)
    ensures HasErrors(CheckAll(p)) <==> AnyViolated(p)
  {
    var v := CheckAll(p);
    if HasErrors(v) {
      var k :| k in v.fields.Keys;
      CheckAllKeys(p, k);
      var f := FieldNamed(k).value;
      assert f.Violated(p);
      match f
      case OffsetField =>
      case LimitField =>
      case TypeIdField =>
      case BreweryIdField =>
    } else {
      assert v.fields == map[];
      CheckAllAtField(p, OffsetField);
      CheckAllAtField(p, LimitField);
      CheckAllAtField(p, TypeIdField);
      CheckAllAtField(p, BreweryIdField);
    }
  }

  /** `validateListSakesParams`: checks every field (errors accumulate, they
      do not stop at the first), and yields the validation error iff at
      least one field is broken. Its field map holds exactly the broken
      fields, each with its own message. */
  function ValidateListSakesParams(p: ListSakesParams): (r: Option<ValidationError>)
    ensures r.None? <==> !AnyViolated(p)
    ensures r.None? <==> forall f: Field :: !f.Violated(p)
    ensures r.Some? ==> forall f: Field :: (f.Name() in r.value.fields <==> f.Violated(p))
    ensures r.Some? ==> forall f: Field :: f.Violated(p) ==> r.value.fields[f.Name()] == f.Message()
    ensures r.Some? ==> HasErrors(r.value) && r.value.fields.Keys <= FieldNames
    ensures r.Some? ==> r.value.base.code == CodeValidationError && r.value.base.status == 400
  {
    CheckAllRecordsExactlyViolations(p);
    CheckAllHasErrorsIffViolation(p);
    AnyViolatedIffSomeField(p);
    var v := CheckAll(p);
    if HasErrors(v) then Some(v) else None
  }

  /** Absent parameters never produce a validation error. */
  lemma AbsentParamsAreValid()
    ensures ValidateListSakesParams(ListSakesParams(None, None, None, None)).None?
  {
  }

  /** The use-case input after defaults: offset 0 and limit 20 when absent. */
  function UsecaseInput(p: ListSakesParams): (input: ListSakesInput)
    ensures input.typeId == p.typeId && input.breweryId == p.breweryId
    ensures p.offset.Some? ==> input.offset == p.offset.value
    ensures p.offset.None? ==> input.offset == 0
    ensures p.limit.Some? ==> input.limit == p.limit.value
    ensures p.limit.None? ==> input.limit == 20
  {
    ListSakesInput(p.typeId, p.breweryId, p.offset.GetOr(DefaultOffset), p.limit.GetOr(DefaultLimit))
  }

  // ---------------------------------------------------------------------
  // Wire shapes.

  datatype SakeTypeResponse = SakeTypeResponse(id: Int32, name: string)

  datatype BreweryResponse = BreweryResponse(
    id: Int32,
    name: string,
    originCountry: string,
    originRegion: Option<string>,
    latitude: Option<real>,
    longitude: Option<real>)

  datatype DrinkStyleResponse = DrinkStyleResponse(id: Int32, name: string, description: Option<string>)

  datatype SakeResponse = SakeResponse(
    id: Int32,
    sakeType: SakeTypeResponse,
    brewery: BreweryResponse,
    name: string,
    abv: real,
    tasteNotes: string,
    memo: Option<string>,
    drinkStyles: seq<DrinkStyleResponse>,
    createdAt: Timestamp,
    updatedAt: Timestamp)

  datatype SakeListMeta = SakeListMeta(total: Int64, offset: Int32, limit: Int32)

  datatype ListSakesResponse = ListSakesResponse(data: seq<SakeResponse>, meta: SakeListMeta)

  datatype ApiError = ApiError(code: string, message: string)

  datatype ResponseBody = ListBody(list: ListSakesResponse) | ErrorBody(errors: seq<ApiError>)

  datatype HttpResponse = HttpResponse(status: int, body: ResponseBody)

  // ---------------------------------------------------------------------
  // Domain -> wire mapping, and its inverse.

  function ToDrinkStyleResponses(ds: seq<DrinkStyle>): (r: seq<DrinkStyleResponse>)
    ensures |r| == |ds|
    ensures forall i :: 0 <= i < |ds| ==>
              r[i] == DrinkStyleResponse(ds[i].id, ds[i].name, ds[i].description)
  {
    if |ds| == 0 then []
    else [DrinkStyleResponse(ds[0].id, ds[0].name, ds[0].description)] + ToDrinkStyleResponses(ds[1..])
  }

  /** `toSakeResponse`: copies every field; coordinates, memo and region keep
      their presence or absence. */
  function ToSakeResponse(s: Sake): (r: SakeResponse)
    ensures r.id == s.id && r.name == s.name && r.abv == s.abv && r.tasteNotes == s.tasteNotes
    ensures r.memo == s.memo && r.brewery.originRegion == s.brewery.originRegion
    ensures r.sakeType.id == s.sakeType.id && r.brewery.id == s.brewery.id
    ensures |r.drinkStyles| == |s.drinkStyles|
    ensures forall i :: 0 <= i < |s.drinkStyles| ==>
              && r.drinkStyles[i].id == s.drinkStyles[i].id
              && r.drinkStyles[i].name == s.drinkStyles[i].name
              && r.drinkStyles[i].description == s.drinkStyles[i].description
  {
    SakeResponse(
      s.id,
      SakeTypeResponse(s.sakeType.id, s.sakeType.name),
      BreweryResponse(s.brewery.id, s.brewery.name, s.brewery.originCountry,
                      s.brewery.originRegion, s.brewery.latitude, s.brewery.longitude),
      s.name,
      s.abv,
      s.tasteNotes,
      s.memo,
      ToDrinkStyleResponses(s.drinkStyles),
      s.createdAt,
      s.updatedAt)
  }

  function FromDrinkStyleResponses(ds: seq<DrinkStyleResponse>): (r: seq<DrinkStyle>)
    ensures |r| == |ds|
    ensures forall i :: 0 <= i < |ds| ==> r[i] == DrinkStyle(ds[i].id, ds[i].name, ds[i].description)
  {
    if |ds| == 0 then []
    else [DrinkStyle(ds[0].id, ds[0].name, ds[0].description)] + FromDrinkStyleResponses(ds[1..])
  }

  /** Reads a wire sake back into the domain record. */
  function FromSakeResponse(w: SakeResponse): Sake
  {
    Sake(
      w.id,
      SakeType(w.sakeType.id, w.sakeType.name),
      Brewery(w.brewery.id, w.brewery.name, w.brewery.originCountry,
              w.brewery.originRegion, w.brewery.latitude, w.brewery.longitude),
      w.name,
      w.abv,
      w.tasteNotes,
      w.memo,
      FromDrinkStyleResponses(w.drinkStyles),
      w.createdAt,
      w.updatedAt)
  }

  /** The mapping to the wire loses nothing, and every wire sake comes from
      exactly one domain sake. */
  lemma SakeResponseRoundTrip(s: Sake, w: SakeResponse)
    ensures FromSakeResponse(ToSakeResponse(s)) == s
    ensures ToSakeResponse(FromSakeResponse(w)) == w
  {
    assert FromDrinkStyleResponses(ToDrinkStyleResponses(s.drinkStyles)) == s.drinkStyles;
    assert ToDrinkStyleResponses(FromDrinkStyleResponses(w.drinkStyles)) == w.drinkStyles;
  }

  function ToSakeResponses(sakes: seq<Sake>): (r: seq<SakeResponse>)
    ensures |r| == |sakes|
    ensures forall i :: 0 <= i < |sakes| ==> r[i] == ToSakeResponse(sakes[i])
  {
    if |sakes| == 0 then []
    else [ToSakeResponse(sakes[0])] + ToSakeResponses(sakes[1..])
  }

  /** `toListSakesResponse`: one wire item per sake, in order, and the
      pagination copied into the meta block. */
  function ToListSakesResponse(output: ListSakesOutput): (r: ListSakesResponse)
    ensures |r.data| == |output.sakes|
    ensures forall i :: 0 <= i < |output.sakes| ==> FromSakeResponse(r.data[i]) == output.sakes[i]
    ensures r.meta.total == output.pagination.total
    ensures r.meta.offset == output.pagination.offset
    ensures r.meta.limit == output.pagination.limit
  {
    var data := ToSakeResponses(output.sakes);
    assert forall i :: 0 <= i < |output.sakes| ==> FromSakeResponse(data[i]) == output.sakes[i] by {
      forall i | 0 <= i < |output.sakes| ensures FromSakeResponse(data[i]) == output.sakes[i] {
        SakeResponseRoundTrip(output.sakes[i], data[i]);
      }
    }
    ListSakesResponse(
      data,
      SakeListMeta(output.pagination.total, output.pagination.offset, output.pagination.limit))
  }

  // ---------------------------------------------------------------------
  // Error rendering.

  /** `order` lists each key exactly once: the order in which Go's map
      iteration happened to visit the validation fields. */
  ghost predicate Enumerates(order: seq<string>, keys: set<string>)
  {
    && (forall i, j :: 0 <= i < j < |order| ==> order[i] != order[j])
    && (forall i :: 0 <= i < |order| ==> order[i] in keys)
    && (forall k :: k in keys ==> exists i :: 0 <= i < |order| && order[i] == k)
  }

  /** A duplicate-free listing of a set is exactly as long as the set. */
  lemma {:induction false} EnumerationLength(order: seq<string>, keys: set<string>)
    requires Enumerates(order, keys)
    ensures |order| == |keys|
    decreases |order|
  {
    if |order| > 0 {
      var rest := order[1..];
      var k := order[0];
      forall i | 0 <= i < |rest| ensures rest[i] in keys - {k} {
        assert rest[i] == order[i + 1];
      }
      forall x | x in keys - {k} ensures exists i :: 0 <= i < |rest| && rest[i] == x {
        var j :| 0 <= j < |order| && order[j] == x;
        assert rest[j - 1] == x;
      }
      forall i, j | 0 <= i < j < |rest| ensures rest[i] != rest[j] {
        assert rest[i] == order[i + 1] && rest[j] == order[j + 1];
      }
      EnumerationLength(rest, keys - {k});
    }
  }

  /** The iteration order fits the error: it enumerates the fields of a
      validation error (other errors have no fields to enumerate). */
  ghost predicate OrderFits(err: Error, order: seq<string>)
  {
    err.Validation? ==> Enumerates(order, err.validation.fields.Keys)
  }

  /** The entries rendered for a validation error, in iteration order:
      entry i belongs to the i-th field visited. */
  function FieldErrors(v: ValidationError, order: seq<string>): (r: seq<ApiError>)
    requires forall i :: 0 <= i < |order| ==> order[i] in v.fields
    ensures |r| == |order|
    ensures forall i :: 0 <= i < |r| ==>
              r[i] == ApiError(v.base.code.Name(), order[i] + ": " + v.fields[order[i]])
  {
    if |order| == 0 then []
    else [ApiError(v.base.code.Name(), order[0] + ": " + v.fields[order[0]])] + FieldErrors(v, order[1..])
  }

  /** As many entries as fields, all with the error's own code. */
  lemma FieldErrorsCount(v: ValidationError, order: seq<string>)
    requires Enumerates(order, v.fields.Keys)
    ensures |FieldErrors(v, order)| == |v.fields|
    ensures forall i :: 0 <= i < |FieldErrors(v, order)| ==> FieldErrors(v, order)[i].code == v.base.code.Name()
  {
    EnumerationLength(order, v.fields.Keys);
  }

  /** Every field has its entry "field: message". */
  lemma FieldErrorsCoverFields(v: ValidationError, order: seq<string>, f: string)
    requires Enumerates(order, v.fields.Keys)
    requires f in v.fields
    ensures exists i :: 0 <= i < |FieldErrors(v, order)|
                        && FieldErrors(v, order)[i] == ApiError(v.base.code.Name(), f + ": " + v.fields[f])
  {
    var i :| 0 <= i < |order| && order[i] == f;
    assert FieldErrors(v, order)[i] == ApiError(v.base.code.Name(), f + ": " + v.fields[f]);
  }

  /** Every entry is "field: message" for some field of the error. */
  lemma FieldErrorsFromFields(v: ValidationError, order: seq<string>, i: int)
    requires Enumerates(order, v.fields.Keys)
    requires 0 <= i < |order|
    ensures exists f :: f in v.fields
                        && FieldErrors(v, order)[i] == ApiError(v.base.code.Name(), f + ": " + v.fields[f])
  {
    var f := order[i];
    assert f in v.fields && FieldErrors(v, order)[i] == ApiError(v.base.code.Name(), f + ": " + v.fields[f]);
  }

  /** The rendered entries do not depend on the iteration order: any two
      enumerations give lists of the same length with the same entries. */
  lemma FieldErrorsOrderIndependent(v: ValidationError, o1: seq<string>, o2: seq<string>)
    requires Enumerates(o1, v.fields.Keys) && Enumerates(o2, v.fields.Keys)
    ensures |FieldErrors(v, o1)| == |FieldErrors(v, o2)|
    ensures forall e :: e in FieldErrors(v, o1) <==> e in FieldErrors(v, o2)
  {
    FieldErrorsCount(v, o1);
    FieldErrorsCount(v, o2);
    forall e | e in FieldErrors(v, o1) ensures e in FieldErrors(v, o2) {
      FieldErrorsMember(v, o1, o2, e);
    }
    forall e | e in FieldErrors(v, o2) ensures e in FieldErrors(v, o1) {
      FieldErrorsMember(v, o2, o1, e);
    }
  }

  lemma FieldErrorsMember(v: ValidationError, o1: seq<string>, o2: seq<string>, e: ApiError)
    requires Enumerates(o1, v.fields.Keys) && Enumerates(o2, v.fields.Keys)
    requires e in FieldErrors(v, o1)
    ensures e in FieldErrors(v, o2)
  {
    var i :| 0 <= i < |FieldErrors(v, o1)| && FieldErrors(v, o1)[i] == e;
    FieldErrorsCoverFields(v, o2, o1[i]);
  }

  /** `handleError`. A validation error answers with its own status and one
      entry per field; any other error with an AppError on its chain answers
      with that AppError's status, code and message; anything else is a
      500 INTERNAL_ERROR whose text is never shown to the client. */
  function HandleError(err: Error, order: seq<string>): (r: HttpResponse)
    requires OrderFits(err, order)
    ensures err.Validation? ==>
              r == HttpResponse(err.validation.base.status, ErrorBody(FieldErrors(err.validation, order)))
    ensures !err.Validation? && As(err).Some? ==>
              r == HttpResponse(As(err).value.status,
                                ErrorBody([ApiError(As(err).value.code.Name(), As(err).value.message)]))
    ensures !err.Validation? && As(err).None? ==>
              r == HttpResponse(500, ErrorBody([ApiError("INTERNAL_ERROR", MsgInternalError)]))
  {
    if err.Validation? then
      HttpResponse(err.validation.base.status, ErrorBody(FieldErrors(err.validation, order)))
    else
      match As(err)
      case Some(a) => HttpResponse(a.status, ErrorBody([ApiError(a.code.Name(), a.message)]))
      case None => HttpResponse(StatusInternalServerError,
                                ErrorBody([ApiError(CodeInternalError.Name(), MsgInternalError)]))
  }

  /** An AppError keeps its status, code and message however deeply `%w`
      wrappers bury it; only its own message reaches the client, never the
      wrappers' text or its cause. */
  lemma WrappedAppErrorKeepsStatus(prefix: string, e: Error, a: AppError, order: seq<string>)
    requires !e.Validation? && As(e) == Some(a)
    ensures HandleError(Wrapped(prefix, e), order) == HandleError(e, order)
    ensures HandleError(e, order) == HttpResponse(a.status, ErrorBody([ApiError(a.code.Name(), a.message)]))
  {
  }

  /** The validation branch is chosen by the error's own kind, not by its
      chain: a validation error wrapped by `%w` loses its field list and, as
      its embedded AppError has no cause, `As` finds nothing and the client
      sees a 500 INTERNAL_ERROR. */
  lemma WrappedValidationErrorIsInternal(prefix: string, v: ValidationError, order: seq<string>)
    requires v.base.cause.None?
    ensures HandleError(Wrapped(prefix, Validation(v)), order) ==
              HttpResponse(500, ErrorBody([ApiError("INTERNAL_ERROR", MsgInternalError)]))
  {
    assert As(Validation(v)).None?;
  }

  // ---------------------------------------------------------------------
  // The handler.

  /** What one request did: the use-case input it passed, if it called the
      use case at all, and the response it wrote. */
  datatype Exchange = Exchange(usecaseCall: Option<ListSakesInput>, response: HttpResponse)

  /** The iteration order fits whichever error the handler ends up rendering. */
  ghost predicate HandlerOrderFits(p: ListSakesParams, usecase: ListSakesUsecaseInterface, order: seq<string>)
  {
    match ValidateListSakesParams(p)
    case Some(v) => Enumerates(order, v.fields.Keys)
    case None => usecase(UsecaseInput(p)).Failure? ==> OrderFits(usecase(UsecaseInput(p)).error, order)
  }

  /** `ListSakes`: validate, then default, then call the use case; render
      its output with 200 or its error through `HandleError`. */
  function ListSakes(p: ListSakesParams, usecase: ListSakesUsecaseInterface, order: seq<string>): (r: Exchange)
    requires HandlerOrderFits(p, usecase, order)
    ensures r.usecaseCall.None? <==> exists f: Field :: f.Violated(p)
    ensures r.usecaseCall.None? ==>
              r.response == HandleError(Validation(ValidateListSakesParams(p).value), order)
    ensures r.usecaseCall.None? ==>
              && r.response.status == 400
              && r.response.body.ErrorBody?
              && 1 <= |r.response.body.errors| <= 4
              && forall i :: 0 <= i < |r.response.body.errors| ==>
                   r.response.body.errors[i].code == "VALIDATION_ERROR"
    ensures r.usecaseCall.Some? ==> r.usecaseCall.value == UsecaseInput(p)
    ensures r.usecaseCall.Some? && usecase(UsecaseInput(p)).Success? ==>
              r.response == HttpResponse(StatusOK, ListBody(ToListSakesResponse(usecase(UsecaseInput(p)).value)))
    ensures r.usecaseCall.Some? && usecase(UsecaseInput(p)).Failure? ==>
              r.response == HandleError(usecase(UsecaseInput(p)).error, order)
  {
    match ValidateListSakesParams(p)
    case Some(v) =>
      RejectionResponse(v, order);
      Exchange(None, HandleError(Validation(v), order))
    case None =>
      var input := UsecaseInput(p);
      match usecase(input)
      case Failure(e) => Exchange(Some(input), HandleError(e, order))
      case Success(output) => Exchange(Some(input), HttpResponse(StatusOK, ListBody(ToListSakesResponse(output))))
  }

  /** A validation error from `ValidateListSakesParams` renders as a 400
      with between one and four VALIDATION_ERROR entries. */
  lemma RejectionResponse(v: ValidationError, order: seq<string>)
    requires HasErrors(v) && v.fields.Keys <= FieldNames
    requires v.base.code == CodeValidationError && v.base.status == 400
    requires Enumerates(order, v.fields.Keys)
    ensures var r := HandleError(Validation(v), order);
            && r.status == 400
            && r.body.ErrorBody?
            && 1 <= |r.body.errors| <= 4
            && forall i :: 0 <= i < |r.body.errors| ==> r.body.errors[i].code == "VALIDATION_ERROR"
  {
    FieldErrorsCount(v, order);
    SubsetCardinality(v.fields.Keys, FieldNames);
  }

  lemma SubsetCardinality(a: set<string>, b: set<string>)
    requires a <= b
    ensures |a| <= |b|
  {
    assert b == a + (b - a);
  }

  /** When validation fails the use case is not consulted: any two use cases
      give the same exchange. */
  lemma RejectedRequestIgnoresUsecase(p: ListSakesParams, u1: ListSakesUsecaseInterface,
                                      u2: ListSakesUsecaseInterface, order: seq<string>)
    requires ValidateListSakesParams(p).Some?
    requires HandlerOrderFits(p, u1, order)
    ensures HandlerOrderFits(p, u2, order)
    ensures ListSakes(p, u1, order) == ListSakes(p, u2, order)
    ensures ListSakes(p, u1, order).usecaseCall.None?
  {
  }
}

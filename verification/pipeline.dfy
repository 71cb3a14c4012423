/** The whole `GET /sakes` pipeline: the HTTP adapter calling the use case,
    which calls the store-backed repository. The lemmas here connect the
    layers: what a request sees is decided by the store snapshot alone. */
module ListPipeline {
  import opened Wrappers
  import opened Errors
  import opened SakeRepositoryPort
  import UC = ListSakesUsecase
  import Repo = SakeRepositoryImpl
  import P = Presentation

  /** The repository port backed by a store snapshot. */
  function Repository(store: Repo.Store): SakeRepository
  {
    f => Repo.List(store, f)
  }

  /** The use case wired to that repository. */
  function Usecase(store: Repo.Store): UC.ListSakesUsecaseInterface
  {
    UC.Bind(Repository(store))
  }

  /** The reference filter for a request that passes validation, written
      independently of `Presentation.UsecaseInput` and the use case: the
      given values, or offset 0 and limit 20 when absent.
      `ValidatedRequestIsNeverClamped` compares the real path against it. */
  function RequestFilter(p: P.ListSakesParams): (f: ListSakesFilter)
    ensures f.typeId == p.typeId && f.breweryId == p.breweryId
    ensures f.offset == (if p.offset.Some? then p.offset.value else 0)
    ensures f.limit == (if p.limit.Some? then p.limit.value else 20)
  {
    ListSakesFilter(p.typeId, p.breweryId, p.offset.GetOr(0), p.limit.GetOr(20))
  }

  /** The iteration order covers the validation error, if there is one. */
  ghost predicate RequestOrderFits(p: P.ListSakesParams, order: seq<string>)
  {
    P.ValidateListSakesParams(p).Some? ==>
      P.Enumerates(order, P.ValidateListSakesParams(p).value.fields.Keys)
  }

  /** Errors reaching the handler from the store-backed use case are
      AppErrors, so any iteration order fits them. */
  lemma StoreOrderFits(p: P.ListSakesParams, store: Repo.Store, order: seq<string>)
    requires RequestOrderFits(p, order)
    ensures P.HandlerOrderFits(p, Usecase(store), order)
  {
    Repo.ListErrorsAreAppErrors(store, UC.RepositoryFilter(P.UsecaseInput(p)));
  }

  /** Validation is stricter than the use case's clamping: a request that
      passes validation reaches the store exactly as given (with defaults
      filled in), and never clamped. */
  lemma ValidatedRequestIsNeverClamped(p: P.ListSakesParams)
    requires P.ValidateListSakesParams(p).None?
    ensures UC.RepositoryFilter(P.UsecaseInput(p)) == RequestFilter(p)
  {
    assert !P.Field.OffsetField.Violated(p) && !P.Field.LimitField.Violated(p);
  }

  /** One request served against one store snapshot. */
  function Serve(p: P.ListSakesParams, store: Repo.Store, order: seq<string>): (r: P.Exchange)
    requires RequestOrderFits(p, order)
    ensures r.usecaseCall.None? <==> P.AnyViolated(p)
    ensures r.usecaseCall.Some? ==> UC.RepositoryFilter(r.usecaseCall.value) == RequestFilter(p)
    ensures r.usecaseCall.Some? && Repo.List(store, RequestFilter(p)).Success? ==>
              && r.response.status == P.StatusOK
              && r.response.body.ListBody?
              && r.response.body.list == P.ToListSakesResponse(UC.ListSakesOutput(
                   Repo.List(store, RequestFilter(p)).value.sakes,
                   Repo.List(store, RequestFilter(p)).value.pagination))
    ensures r.usecaseCall.None? ==>
              r.response == P.HandleError(Validation(P.ValidateListSakesParams(p).value), order)
    ensures r.usecaseCall.Some? && Repo.List(store, RequestFilter(p)).Failure? ==>
              Repo.List(store, RequestFilter(p)).error.App? &&
              var a := Repo.List(store, RequestFilter(p)).error.app;
              r.response == P.HttpResponse(a.status, P.ErrorBody([P.ApiError(a.code.Name(), a.message)]))
  {
    StoreOrderFits(p, store, order);
    P.AnyViolatedIffSomeField(p);
    Repo.ListErrorsAreAppErrors(store, RequestFilter(p));
    if P.ValidateListSakesParams(p).None? then
      ValidatedRequestIsNeverClamped(p);
      P.ListSakes(p, Usecase(store), order)
    else
      P.ListSakes(p, Usecase(store), order)
  }

  /** A request with no parameters, served against `store`. */
  function ServeNoParams(store: Repo.Store): P.Exchange
  {
    P.AbsentParamsAreValid();
    Serve(P.ListSakesParams(None, None, None, None), store, [])
  }

  /** With no parameters and an empty catalogue the answer is 200 with no
      data and meta total 0, offset 0, limit 20. */
  lemma EmptyCatalogue(store: Repo.Store)
    requires store.countSakes(Repo.CountSakesParams(None, None)) == Repo.Rows(0)
    requires store.listSakes(Repo.ListSakesParams(20, 0, None, None)) == Repo.Rows([])
    ensures ServeNoParams(store) ==
              P.Exchange(Some(UC.ListSakesInput(None, None, 0, 20)),
                         P.HttpResponse(200, P.ListBody(P.ListSakesResponse([], P.SakeListMeta(0, 0, 20)))))
  {
    var p := P.ListSakesParams(None, None, None, None);
    P.AbsentParamsAreValid();
    assert Repo.HydrateAll(store, []) == Success([]);
  }

  /** Count and page are separate queries, and nothing ties their answers
      together: for a request with no parameters, a store whose count says 0
      while its page holds one row that hydrates is served as 200 with
      total 0 and one entry. This is the disagreement concurrent writes can
      cause between the two queries. */
  lemma CountMayDisagreeWithPage(store: Repo.Store, row: Repo.SakeRow)
    requires store.countSakes(Repo.CountSakesParams(None, None)) == Repo.Rows(0)
    requires store.listSakes(Repo.ListSakesParams(20, 0, None, None)) == Repo.Rows([row])
    requires Repo.ToSakeEntity(store, row).Success?
    ensures var r := ServeNoParams(store).response;
            && r.status == 200
            && r.body.ListBody?
            && r.body.list.meta.total == 0
            && |r.body.list.data| == 1
  {
    var p := P.ListSakesParams(None, None, None, None);
    P.AbsentParamsAreValid();
    P.AnyViolatedIffSomeField(p);
    OneRowPage(store, row);
    var f := RequestFilter(p);
    assert f == ListSakesFilter(None, None, 0, 20);
    var page := Repo.List(store, f).value;
    var r := ServeNoParams(store);
    assert r.response.body.list == P.ToListSakesResponse(UC.ListSakesOutput(page.sakes, page.pagination));
  }

  /** The store answers of `CountMayDisagreeWithPage` make `List` return the
      one hydrated row with total 0. */
  lemma OneRowPage(store: Repo.Store, row: Repo.SakeRow)
    requires store.countSakes(Repo.CountSakesParams(None, None)) == Repo.Rows(0)
    requires store.listSakes(Repo.ListSakesParams(20, 0, None, None)) == Repo.Rows([row])
    requires Repo.ToSakeEntity(store, row).Success?
    ensures var page := Repo.List(store, ListSakesFilter(None, None, 0, 20));
            && page.Success?
            && |page.value.sakes| == 1
            && page.value.pagination.total == 0
  {
    var s := Repo.ToSakeEntity(store, row).value;
    assert [row][0] == row && [row][1..] == [];
    assert Repo.HydrateAll(store, []) == Success([]);
    assert [s] + [] == [s];
    assert Repo.HydrateAll(store, [row]) == Success([s]);
  }

  /** The meta block of a served page reports the store's count for the
      request's filter, and the offset and limit the request asked for. */
  lemma ServedMetaMatchesStore(p: P.ListSakesParams, store: Repo.Store, order: seq<string>)
    requires RequestOrderFits(p, order)
    requires Serve(p, store, order).response.status == 200
    ensures Serve(p, store, order).response.body.ListBody?
    ensures var meta := Serve(p, store, order).response.body.list.meta;
            && meta.total == store.countSakes(Repo.CountSakesParams(p.typeId, p.breweryId)).value
            && meta.offset == RequestFilter(p).offset
            && meta.limit == RequestFilter(p).limit
  {
    var r := Serve(p, store, order);
    var f := RequestFilter(p);
    if Repo.List(store, f).Failure? {
      ListFailureStatus(store, f);
      assert false;
    }
  }

  /** A failed `List` answers with NotFound (404) or DatabaseError (500). */
  lemma ListFailureStatus(store: Repo.Store, f: ListSakesFilter)
    requires Repo.List(store, f).Failure?
    ensures Repo.List(store, f).error.App?
    ensures var a := Repo.List(store, f).error.app;
            (a.code == CodeNotFound && a.status == 404) || (a.code == CodeDatabaseError && a.status == 500)
  {
    Repo.ListErrorsAreAppErrors(store, f);
    if store.countSakes(Repo.CountSakesParams(f.typeId, f.breweryId)).Rows? && Repo.PageRows(store, f).Rows? {
      var rows := Repo.PageRows(store, f).value;
      Repo.HydrateAllFailsAtFirstBadRow(store, rows);
      var i :| 0 <= i < |rows| && Repo.ToSakeEntity(store, rows[i]) == Failure(Repo.List(store, f).error)
                              && forall j :: 0 <= j < i ==> Repo.ToSakeEntity(store, rows[j]).Success?;
    }
  }

  /** A valid request whose count query fails gets 500 DATABASE_ERROR with
      the count failure message, and the store's own error text stays hidden. */
  lemma CountFailureAnswers500(p: P.ListSakesParams, store: Repo.Store, order: seq<string>)
    requires RequestOrderFits(p, order)
    requires !P.AnyViolated(p)
    requires store.countSakes(Repo.CountSakesParams(p.typeId, p.breweryId)).QueryError?
    ensures Serve(p, store, order).response ==
              P.HttpResponse(500, P.ErrorBody([P.ApiError("DATABASE_ERROR", Repo.MsgCountFailed)]))
  {
  }

  /** A broken row answers with an error and never with part of the page:
      the response is that of the first row that fails to hydrate. */
  lemma HydrationFailureIsNeverPartial(p: P.ListSakesParams, store: Repo.Store, order: seq<string>, i: int)
    requires RequestOrderFits(p, order)
    requires !P.AnyViolated(p)
    requires store.countSakes(Repo.CountSakesParams(p.typeId, p.breweryId)).Rows?
    requires Repo.PageRows(store, RequestFilter(p)).Rows?
    requires 0 <= i < |Repo.PageRows(store, RequestFilter(p)).value|
    requires Repo.ToSakeEntity(store, Repo.PageRows(store, RequestFilter(p)).value[i]).Failure?
    ensures Serve(p, store, order).response.body.ErrorBody?
    ensures |Serve(p, store, order).response.body.errors| == 1
    ensures var rows := Repo.PageRows(store, RequestFilter(p)).value;
            exists j :: 0 <= j <= i
                        && Repo.ToSakeEntity(store, rows[j]).Failure?
                        && Repo.ToSakeEntity(store, rows[j]).error.App?
                        && (forall k :: 0 <= k < j ==> Repo.ToSakeEntity(store, rows[k]).Success?)
                        && var a := Repo.ToSakeEntity(store, rows[j]).error.app;
                           Serve(p, store, order).response ==
                             P.HttpResponse(a.status, P.ErrorBody([P.ApiError(a.code.Name(), a.message)]))
  {
    var f := RequestFilter(p);
    Repo.ListFailsAtFirstBadRow(store, f);
    var rows := Repo.PageRows(store, f).value;
    var j :| 0 <= j < |rows|
             && Repo.ToSakeEntity(store, rows[j]) == Failure(Repo.List(store, f).error)
             && forall k :: 0 <= k < j ==> Repo.ToSakeEntity(store, rows[k]).Success?;
  }

  /** A negative offset is refused with 400 before the use case runs, and the
      response carries the offset rule's entry "offset: <message>". */
  lemma NegativeOffsetIsRejected(p: P.ListSakesParams, store: Repo.Store, order: seq<string>)
    requires RequestOrderFits(p, order)
    requires p.offset.Some? && p.offset.value < 0
    ensures Serve(p, store, order).usecaseCall.None?
    ensures Serve(p, store, order).response.status == 400
    ensures Serve(p, store, order).response.body.ErrorBody?
    ensures exists k :: 0 <= k < |Serve(p, store, order).response.body.errors|
                        && Serve(p, store, order).response.body.errors[k] ==
                             P.ApiError("VALIDATION_ERROR",
                                        P.Field.OffsetField.Name() + ": " + P.Field.OffsetField.Message())
  {
    assert P.Field.OffsetField.Violated(p);
    var v := P.ValidateListSakesParams(p).value;
    var r := Serve(p, store, order);
    assert r.response == P.HandleError(Validation(v), order);
    P.RejectionResponse(v, order);
    var name := P.Field.OffsetField.Name();
    assert v.fields[name] == P.Field.OffsetField.Message();
    P.FieldErrorsCoverFields(v, order, name);
  }
}

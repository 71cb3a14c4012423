/** The relational adapter behind the repository port. The store is an
    abstract snapshot: each query it answers either yields rows or fails with
    a Go error. `List` runs a count query, a page query, and then hydrates
    every page row with three point lookups; the first failure ends the call. */
module SakeRepositoryImpl {
  import opened Wrappers
  import opened SafeConv
  import opened Entity
  import opened Errors
  import opened SakeRepositoryPort

  // Messages of the errors this adapter raises.
  const MsgCountFailed := "酒の件数取得に失敗しました"
  const MsgListFailed := "酒一覧の取得に失敗しました"
  const MsgTypeNotFound := "酒の種類が見つかりません"
  const MsgTypeFailed := "酒の種類取得に失敗しました"
  const MsgBreweryNotFound := "酒造が見つかりません"
  const MsgBreweryFailed := "酒造取得に失敗しました"
  const MsgDrinkStylesFailed := "飲み方取得に失敗しました"

  /** A stored NUMERIC value; `valid` is false for SQL NULL or a value that
      cannot be read as a float. */
  datatype Numeric = Numeric(valid: bool, value: real)

  /** A stored geometry (PostGIS), kept as its raw encoding. */
  datatype Geometry = NullGeometry | Encoded(bytes: seq<bv8>)

  // Rows as the store returns them.
  datatype SakeRow = SakeRow(
    id: Int32,
    typeId: Int32,
    breweryId: Int32,
    name: string,
    abv: Numeric,
    tasteNotes: string,
    memo: Option<string>,
    createdAt: Timestamp,
    updatedAt: Timestamp)

  datatype SakeTypeRow = SakeTypeRow(id: Int32, name: string)

  datatype BreweryRow = BreweryRow(
    id: Int32,
    name: string,
    originCountry: string,
    originRegion: Option<string>,
    position: Geometry)

  datatype DrinkStyleRow = DrinkStyleRow(id: Int32, name: string, description: Option<string>)

  // Query parameters: the count query and the page query share the filter.
  datatype CountSakesParams = CountSakesParams(typeId: Option<Int32>, breweryId: Option<Int32>)

  datatype ListSakesParams = ListSakesParams(
    limit: Int32,
    offset: Int32,
    typeId: Option<Int32>,
    breweryId: Option<Int32>)

  /** What one query returns: its rows, or the store's error. */
  datatype QueryResult<T> = Rows(value: T) | QueryError(err: Error)

  /** The store as an oracle over one snapshot: one answer per query. */
  datatype Store = Store(
    countSakes: CountSakesParams -> QueryResult<Int64>,
    listSakes: ListSakesParams -> QueryResult<seq<SakeRow>>,
    getSakeType: Int32 -> QueryResult<SakeTypeRow>,
    getBrewery: Int32 -> QueryResult<BreweryRow>,
    getDrinkStylesBySakeId: Int32 -> QueryResult<seq<DrinkStyleRow>>)

  /** Geometry decoding is not implemented: coordinates are always absent. */
  function ExtractCoordinates(position: Geometry): (r: (Option<real>, Option<real>))
    ensures r.0.None? && r.1.None?
  {
    (None, None)
  }

  /** An unreadable or NULL numeric becomes 0; a readable one keeps its value. */
  function ConvertNumericToFloat32(n: Numeric): (r: real)
    ensures !n.valid ==> r == 0.0
    ensures n.valid ==> r == n.value
  {
    if !n.valid then 0.0 else n.value
  }

  /** A failed point lookup: the no-rows sentinel anywhere on the error's
      chain means the row is missing (NotFound); anything else is a
      DatabaseError that keeps the store's error as its cause. */
  function LookupFailure(err: Error, notFound: string, failed: string): (r: Error)
    ensures IsNoRows(err) ==> r == App(NotFoundError(notFound))
    ensures !IsNoRows(err) ==> r == App(DatabaseError(failed, err)) && Unwrap(r) == Some(err)
  {
    if IsNoRows(err) then App(NotFoundError(notFound))
    else App(DatabaseError(failed, err))
  }

  /** Copies each drink-style row into a domain record, in order. */
  function ToDrinkStyles(rows: seq<DrinkStyleRow>): (r: seq<DrinkStyle>)
    ensures |r| == |rows|
    ensures forall i :: 0 <= i < |rows| ==>
              r[i] == DrinkStyle(rows[i].id, rows[i].name, rows[i].description)
  {
    if |rows| == 0 then []
    else [DrinkStyle(rows[0].id, rows[0].name, rows[0].description)] + ToDrinkStyles(rows[1..])
  }

  /** The sake a row hydrates to, given its three lookup results. */
  predicate HydratedFrom(s: Sake, row: SakeRow, t: SakeTypeRow, b: BreweryRow, ds: seq<DrinkStyleRow>)
  {
    && s.id == row.id
    && s.name == row.name
    && s.tasteNotes == row.tasteNotes
    && s.memo == row.memo
    && s.abv == (if row.abv.valid then row.abv.value else 0.0)
    && s.createdAt == row.createdAt
    && s.updatedAt == row.updatedAt
    && s.sakeType == SakeType(t.id, t.name)
    && s.brewery == Brewery(b.id, b.name, b.originCountry, b.originRegion, None, None)
    && |s.drinkStyles| == |ds|
    && (forall i :: 0 <= i < |ds| ==>
          s.drinkStyles[i] == DrinkStyle(ds[i].id, ds[i].name, ds[i].description))
  }

  /** `toSakeEntity`: looks up the type, then the brewery, then the drink
      styles; stops at the first failed lookup. */
  function ToSakeEntity(store: Store, row: SakeRow): (r: Result<Sake, Error>)
    ensures store.getSakeType(row.typeId).QueryError? ==>
              r == Failure(LookupFailure(store.getSakeType(row.typeId).err, MsgTypeNotFound, MsgTypeFailed))
    ensures store.getSakeType(row.typeId).Rows? && store.getBrewery(row.breweryId).QueryError? ==>
              r == Failure(LookupFailure(store.getBrewery(row.breweryId).err, MsgBreweryNotFound, MsgBreweryFailed))
    ensures store.getSakeType(row.typeId).Rows? && store.getBrewery(row.breweryId).Rows?
            && store.getDrinkStylesBySakeId(row.id).QueryError? ==>
              r == Failure(App(DatabaseError(MsgDrinkStylesFailed, store.getDrinkStylesBySakeId(row.id).err)))
    ensures r.Failure? ==> r.error.App?
    ensures r.Success? <==>
              && store.getSakeType(row.typeId).Rows?
              && store.getBrewery(row.breweryId).Rows?
              && store.getDrinkStylesBySakeId(row.id).Rows?
    ensures r.Success? ==>
              HydratedFrom(r.value, row, store.getSakeType(row.typeId).value,
                           store.getBrewery(row.breweryId).value,
                           store.getDrinkStylesBySakeId(row.id).value)
  {
    match store.getSakeType(row.typeId)
    case QueryError(e) => Failure(LookupFailure(e, MsgTypeNotFound, MsgTypeFailed))
    case Rows(t) =>
      match store.getBrewery(row.breweryId)
      case QueryError(e) => Failure(LookupFailure(e, MsgBreweryNotFound, MsgBreweryFailed))
      case Rows(b) =>
        match store.getDrinkStylesBySakeId(row.id)
        case QueryError(e) => Failure(App(DatabaseError(MsgDrinkStylesFailed, e)))
        case Rows(ds) =>
          var (latitude, longitude) := ExtractCoordinates(b.position);
          Success(Sake(
            row.id,
            SakeType(t.id, t.name),
            Brewery(b.id, b.name, b.originCountry, b.originRegion, latitude, longitude),
            row.name,
            ConvertNumericToFloat32(row.abv),
            row.tasteNotes,
            row.memo,
            ToDrinkStyles(ds),
            row.createdAt,
            row.updatedAt))
  }

  /** A drink-style lookup is never classified as NotFound: whatever error
      the store reports, the row fails with a DatabaseError. */
  lemma DrinkStyleFailureIsNeverNotFound(store: Store, row: SakeRow)
    requires store.getSakeType(row.typeId).Rows? && store.getBrewery(row.breweryId).Rows?
    requires store.getDrinkStylesBySakeId(row.id).QueryError?
    ensures ToSakeEntity(store, row).Failure?
    ensures ToSakeEntity(store, row).error.App?
    ensures ToSakeEntity(store, row).error.app.code == CodeDatabaseError
  {
  }

  /** Hydrates the page rows in order; the first failing row ends the fold. */
  function HydrateAll(store: Store, rows: seq<SakeRow>): (r: Result<seq<Sake>, Error>)
    ensures r.Success? ==> |r.value| == |rows|
  {
    if |rows| == 0 then Success([])
    else match ToSakeEntity(store, rows[0])
      case Failure(e) => Failure(e)
      case Success(s) =>
        match HydrateAll(store, rows[1..])
        case Failure(e) => Failure(e)
        case Success(rest) => Success([s] + rest)
  }

  /** Hydration succeeds iff every row hydrates, and then yields exactly one
      sake per row, in row order. */
  lemma {:induction false} HydrateAllSucceeds(store: Store, rows: seq<SakeRow>)
    ensures HydrateAll(store, rows).Success? <==>
              forall i :: 0 <= i < |rows| ==> ToSakeEntity(store, rows[i]).Success?
    ensures HydrateAll(store, rows).Success? ==>
              && |HydrateAll(store, rows).value| == |rows|
              && forall i :: 0 <= i < |rows| ==>
                   HydrateAll(store, rows).value[i] == ToSakeEntity(store, rows[i]).value
    decreases |rows|
  {
    if |rows| > 0 {
      var tail := rows[1..];
      HydrateAllSucceeds(store, tail);
      assert forall i :: 0 <= i < |tail| ==> tail[i] == rows[i + 1];
      if ToSakeEntity(store, rows[0]).Success? && HydrateAll(store, tail).Success? {
        var r := HydrateAll(store, rows).value;
        assert r == [ToSakeEntity(store, rows[0]).value] + HydrateAll(store, tail).value;
        forall i | 0 <= i < |rows| ensures r[i] == ToSakeEntity(store, rows[i]).value {
          if i > 0 { assert r[i] == HydrateAll(store, tail).value[i - 1]; }
        }
      } else if ToSakeEntity(store, rows[0]).Success? {
        var k :| 0 <= k < |tail| && !ToSakeEntity(store, tail[k]).Success?;
        assert !ToSakeEntity(store, rows[k + 1]).Success?;
      }
    }
  }

  /** A failed hydration reports the error of the first failing row: every
      earlier row hydrated, and no partial list is returned. */
  lemma {:induction false} HydrateAllFailsAtFirstBadRow(store: Store, rows: seq<SakeRow>)
    requires HydrateAll(store, rows).Failure?
    ensures exists i :: 0 <= i < |rows|
                        && ToSakeEntity(store, rows[i]) == Failure(HydrateAll(store, rows).error)
                        && forall j :: 0 <= j < i ==> ToSakeEntity(store, rows[j]).Success?
    decreases |rows|
  {
    if ToSakeEntity(store, rows[0]).Failure? {
      assert ToSakeEntity(store, rows[0]) == Failure(HydrateAll(store, rows).error);
    } else {
      var tail := rows[1..];
      HydrateAllFailsAtFirstBadRow(store, tail);
      var i :| 0 <= i < |tail|
               && ToSakeEntity(store, tail[i]) == Failure(HydrateAll(store, tail).error)
               && forall j :: 0 <= j < i ==> ToSakeEntity(store, tail[j]).Success?;
      assert tail[i] == rows[i + 1];
      forall j | 0 <= j < i + 1 ensures ToSakeEntity(store, rows[j]).Success? {
        if j > 0 { assert rows[j] == tail[j - 1]; }
      }
    }
  }

  /** `List`: count, fetch the page, hydrate every row. */
  function List(store: Store, filter: ListSakesFilter): (r: Result<SakePage, Error>)
    ensures store.countSakes(CountSakesParams(filter.typeId, filter.breweryId)).QueryError? ==>
              r == Failure(App(DatabaseError(MsgCountFailed,
                     store.countSakes(CountSakesParams(filter.typeId, filter.breweryId)).err)))
    ensures store.countSakes(CountSakesParams(filter.typeId, filter.breweryId)).Rows?
            && store.listSakes(ListSakesParams(filter.limit, filter.offset, filter.typeId, filter.breweryId)).QueryError? ==>
              r == Failure(App(DatabaseError(MsgListFailed,
                     store.listSakes(ListSakesParams(filter.limit, filter.offset, filter.typeId, filter.breweryId)).err)))
    ensures r.Success? ==>
              && r.value.pagination.total == store.countSakes(CountSakesParams(filter.typeId, filter.breweryId)).value
              && r.value.pagination.offset == filter.offset
              && r.value.pagination.limit == filter.limit
  {
    match store.countSakes(CountSakesParams(filter.typeId, filter.breweryId))
    case QueryError(e) => Failure(App(DatabaseError(MsgCountFailed, e)))
    case Rows(total) =>
      match store.listSakes(ListSakesParams(filter.limit, filter.offset, filter.typeId, filter.breweryId))
      case QueryError(e) => Failure(App(DatabaseError(MsgListFailed, e)))
      case Rows(rows) =>
        match HydrateAll(store, rows)
        case Failure(e) => Failure(e)
        case Success(sakes) => Success(SakePage(sakes, Pagination(total, filter.offset, filter.limit)))
  }

  /** The page rows `List` hydrates, when both queries answered. */
  function PageRows(store: Store, filter: ListSakesFilter): QueryResult<seq<SakeRow>>
  {
    store.listSakes(ListSakesParams(filter.limit, filter.offset, filter.typeId, filter.breweryId))
  }

  /** After both queries succeed, `List` succeeds iff every page row
      hydrates; its sakes are then the hydrated rows in order, one per row. */
  lemma ListHydratesEveryRow(store: Store, filter: ListSakesFilter)
    requires store.countSakes(CountSakesParams(filter.typeId, filter.breweryId)).Rows?
    requires PageRows(store, filter).Rows?
    ensures var rows := PageRows(store, filter).value;
            && (List(store, filter).Success? <==>
                  forall i :: 0 <= i < |rows| ==> ToSakeEntity(store, rows[i]).Success?)
            && (List(store, filter).Success? ==>
                  && |List(store, filter).value.sakes| == |rows|
                  && forall i :: 0 <= i < |rows| ==>
                       List(store, filter).value.sakes[i] == ToSakeEntity(store, rows[i]).value)
  {
    HydrateAllSucceeds(store, PageRows(store, filter).value);
  }

  /** When a page row fails to hydrate, `List` fails with the error of the
      first failing row, and returns no page at all. */
  lemma ListFailsAtFirstBadRow(store: Store, filter: ListSakesFilter)
    requires store.countSakes(CountSakesParams(filter.typeId, filter.breweryId)).Rows?
    requires PageRows(store, filter).Rows?
    requires exists i :: 0 <= i < |PageRows(store, filter).value|
                         && ToSakeEntity(store, PageRows(store, filter).value[i]).Failure?
    ensures List(store, filter).Failure?
    ensures var rows := PageRows(store, filter).value;
            exists i :: 0 <= i < |rows|
                        && ToSakeEntity(store, rows[i]) == Failure(List(store, filter).error)
                        && forall j :: 0 <= j < i ==> ToSakeEntity(store, rows[j]).Success?
  {
    var rows := PageRows(store, filter).value;
    HydrateAllSucceeds(store, rows);
    HydrateAllFailsAtFirstBadRow(store, rows);
  }

  /** Every error `List` returns is an AppError (a NotFound or a
      DatabaseError), never a bare store error or a validation error. */
  lemma ListErrorsAreAppErrors(store: Store, filter: ListSakesFilter)
    ensures List(store, filter).Failure? ==> List(store, filter).error.App?
  {
    if store.countSakes(CountSakesParams(filter.typeId, filter.breweryId)).Rows?
       && PageRows(store, filter).Rows?
       && HydrateAll(store, PageRows(store, filter).value).Failure?
    {
      HydrateAllFailsAtFirstBadRow(store, PageRows(store, filter).value);
    }
  }
}

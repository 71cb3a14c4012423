/** The list-sakes use case: silently normalises offset and limit, hands one
    filter to the repository port, and passes its result or error through. */
module ListSakesUsecase {
  import opened Wrappers
  import opened SafeConv
  import opened Entity
  import opened Errors
  import opened SakeRepositoryPort

  const DefaultLimit: Int32 := 20
  const MaxLimit: Int32 := 100

  datatype ListSakesInput = ListSakesInput(
    typeId: Option<Int32>,
    breweryId: Option<Int32>,
    offset: Int32,
    limit: Int32)

  datatype ListSakesOutput = ListSakesOutput(sakes: seq<Sake>, pagination: Pagination)

  /** Anything that executes the use case (the presentation layer's view of it). */
  type ListSakesUsecaseInterface = ListSakesInput -> Result<ListSakesOutput, Error>

  /** A negative offset becomes 0; any other offset is kept. */
  function EffectiveOffset(offset: Int32): (r: Int32)
    ensures r >= 0
    ensures r == offset <==> offset >= 0
    ensures r != offset ==> r == 0
  {
    if offset < 0 then 0 else offset
  }

  /** A limit outside [1, 100] becomes 20; any limit inside is kept. */
  function EffectiveLimit(limit: Int32): (r: Int32)
    ensures 1 <= r <= MaxLimit
    ensures r == limit <==> 1 <= limit <= MaxLimit
    ensures r != limit ==> r == DefaultLimit
  {
    if limit < 1 || limit > MaxLimit then DefaultLimit else limit
  }

  /** A filter the repository can take without further normalisation. */
  predicate Normalised(f: ListSakesFilter)
  {
    f.offset >= 0 && 1 <= f.limit <= MaxLimit
  }

  /** The single filter `Execute` hands to the repository. */
  function RepositoryFilter(input: ListSakesInput): (f: ListSakesFilter)
    ensures Normalised(f)
    ensures f.typeId == input.typeId && f.breweryId == input.breweryId
    ensures f.offset == EffectiveOffset(input.offset) && f.limit == EffectiveLimit(input.limit)
  {
    ListSakesFilter(input.typeId, input.breweryId,
                    EffectiveOffset(input.offset), EffectiveLimit(input.limit))
  }

  /** `Execute`: a repository error comes back unchanged; on success the
      output holds exactly the repository's sakes and pagination. */
  function Execute(input: ListSakesInput, repo: SakeRepository): (r: Result<ListSakesOutput, Error>)
    ensures repo(RepositoryFilter(input)).Failure? ==>
              r == Failure(repo(RepositoryFilter(input)).error)
    ensures repo(RepositoryFilter(input)).Success? ==>
              && r.Success?
              && r.value.sakes == repo(RepositoryFilter(input)).value.sakes
              && r.value.pagination == repo(RepositoryFilter(input)).value.pagination
  {
    match repo(RepositoryFilter(input))
    case Failure(e) => Failure(e)
    case Success(page) => Success(ListSakesOutput(page.sakes, page.pagination))
  }

  /** The use case bound to one repository. */
  function Bind(repo: SakeRepository): ListSakesUsecaseInterface
  {
    input => Execute(input, repo)
  }

  /** Normalising is idempotent: feeding a normalised filter back in as
      input reproduces it. */
  lemma NormalisationIsIdempotent(input: ListSakesInput)
    ensures var f := RepositoryFilter(input);
            RepositoryFilter(ListSakesInput(f.typeId, f.breweryId, f.offset, f.limit)) == f
  {
  }

  /** An input already in range passes through untouched, and only such
      inputs do. */
  lemma InRangeInputIsUntouched(input: ListSakesInput)
    ensures (input.offset >= 0 && 1 <= input.limit <= MaxLimit) <==>
            RepositoryFilter(input) == ListSakesFilter(input.typeId, input.breweryId, input.offset, input.limit)
  {
  }
}

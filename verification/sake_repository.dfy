/** The repository port: the capability the use case needs from storage. */
module SakeRepositoryPort {
  import opened Wrappers
  import opened SafeConv
  import opened Entity
  import opened Errors

  /** An absent type or brewery id means "do not filter on it". */
  datatype ListSakesFilter = ListSakesFilter(
    typeId: Option<Int32>,
    breweryId: Option<Int32>,
    offset: Int32,
    limit: Int32)

  /** The successful outcome of `List`: one page of sakes and its pagination. */
  datatype SakePage = SakePage(sakes: seq<Sake>, pagination: Pagination)

  /** Any implementation of `List(filter)`; swappable, as the port is. */
  type SakeRepository = ListSakesFilter -> Result<SakePage, Error>
}

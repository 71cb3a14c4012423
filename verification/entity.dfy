/** Domain records of the sake catalogue. They carry no behaviour; optional
    columns are `Option`s so that "absent" stays distinct from "" or 0. */
module Entity {
  import opened Wrappers
  import opened SafeConv

  /** An instant, kept opaque: the core only copies timestamps. */
  type Timestamp = int

  datatype SakeType = SakeType(id: Int32, name: string)

  datatype Brewery = Brewery(
    id: Int32,
    name: string,
    originCountry: string,
    originRegion: Option<string>,
    latitude: Option<real>,
    longitude: Option<real>)

  datatype DrinkStyle = DrinkStyle(id: Int32, name: string, description: Option<string>)

  /** `abv` is the alcohol-by-volume percentage, taken as an exact real. */
  datatype Sake = Sake(
    id: Int32,
    sakeType: SakeType,
    brewery: Brewery,
    name: string,
    abv: real,
    tasteNotes: string,
    memo: Option<string>,
    drinkStyles: seq<DrinkStyle>,
    createdAt: Timestamp,
    updatedAt: Timestamp)

  /** Describes the page returned: the total match count and the echoed
      offset and limit. */
  datatype Pagination = Pagination(total: Int64, offset: Int32, limit: Int32)
}

/**
 * The records of the catalogue (Artist, Category, Artwork), the data-transfer
 * shapes the services accept and return, and the service response with its
 * seven-value status.
 */
module Models {

  datatype Option<+T> = None | Some(value: T)

  /** A calendar date without a time of day (.NET's DateOnly), only ever copied and compared. */
  datatype Date = Date(year: int, month: int, day: int)

  // ---------------------------------------------------------------- entities

  datatype Artist = Artist(artistId: int, name: string, bio: string, email: string)

  datatype Category = Category(categoryId: int, cname: string, dateCreated: Date)

  /** Every artwork carries the keys of one artist and one category. */
  datatype Artwork = Artwork(
    artworkId: int,
    title: string,
    description: string,
    datePosted: Date,
    artistId: int,
    categoryId: int)

  // ------------------------------------------------------------------ DTOs

  datatype AddArtistDto = AddArtistDto(name: string, bio: string, email: string)

  datatype UpdateArtistDto = UpdateArtistDto(artistId: int, name: string, bio: string, email: string)

  datatype ArtistDto = ArtistDto(
    artistId: int,
    name: string,
    bio: string,
    totalArtworks: int,
    artworksTitle: seq<string>)

  datatype AddCategoryDto = AddCategoryDto(cname: string, dateCreated: Date)

  datatype UpdateCategoryDto = UpdateCategoryDto(categoryId: int, cname: string, dateCreated: Date)

  datatype CategoryDto = CategoryDto(
    categoryId: int,
    cname: string,
    dateCreated: Date,
    totalArtworks: int,
    artworksTitle: seq<string>)

  datatype AddArtworkDto = AddArtworkDto(
    title: string,
    datePosted: Date,
    description: string,
    categoryId: int,
    artistId: int)

  datatype UpdateArtworkDto = UpdateArtworkDto(
    artworkId: int,
    title: string,
    datePosted: Date,
    description: string,
    categoryId: int,
    artistId: int)

  /**
   * The read view of an artwork. `description` is `None` where the service
   * leaves the (nullable) string unset; the two ids are 0 where it leaves
   * them at their default.
   */
  datatype ArtworkDto = ArtworkDto(
    artworkId: int,
    title: string,
    datePosted: Date,
    artistName: string,
    categoryName: string,
    description: Option<string>,
    categoryId: int,
    artistId: int)

  // -------------------------------------------------------------- responses

  datatype Status = NotFound | Created | Updated | Deleted | Error | AlreadyExists | NotLinked

  /** `createdId` is 0 unless the status is `Created`. */
  datatype ServiceResponse = ServiceResponse(status: Status, createdId: int, messages: seq<string>)

  function Respond(status: Status, messages: seq<string>): ServiceResponse {
    ServiceResponse(status, 0, messages)
  }

  /** Decimal rendering of an id, as string interpolation prints it. */
  function IdText(n: int): (s: string)
    ensures |s| > 0
  {
    if n < 0 then "-" + Digits(-n) else Digits(n)
  }

  function Digits(n: nat): (s: string)
    ensures |s| > 0
  {
    if n < 10 then ["0123456789"[n]] else Digits(n / 10) + ["0123456789"[n % 10]]
  }
}

/**
 * The canonical book record of the app (the Google Books volume shape):
 * `ApiResponse`, `Item`, `VolumeInfo` and `ImageLinks`. Kotlin default
 * arguments become default values of the constructors' parameters, so
 * `VolumeInfo(title := t)` takes every other field's placeholder.
 */
module Book {
  import opened Wrappers
  import opened Kotlin

  const TitleNotAvailable := "Title not available"
  const AuthorNotAvailable := "Author not available"
  const PublicationDateNotAvailable := "Publication date not available"
  const DescriptionNotAvailable := "Description not available"
  const ImageNotAvailable := "Image not available"

  datatype ImageLinks = ImageLinks(thumbnail: string)

  /**
   * The volume metadata. `categories` and `language` are not declared by
   * the record itself, but the Open Library work mapper passes them, so
   * they are here as optional fields that default to `null`.
   */
  datatype VolumeInfo = VolumeInfo(
    title: string := TitleNotAvailable,
    authors: seq<string> := [AuthorNotAvailable],
    publishedDate: string := PublicationDateNotAvailable,
    description: string := DescriptionNotAvailable,
    imageLinks: ImageLinks := ImageLinks(thumbnail := ImageNotAvailable),
    categories: Option<seq<string>> := None,
    language: Option<string> := None)

  datatype Item = Item(id: string, volumeInfo: VolumeInfo)

  /** A Google Books search reply; `totalItems` is the provider's count, not `|items|`. */
  datatype ApiResponse = ApiResponse(kind: string, totalItems: Int32, items: seq<Item>)

  /** Every field of a `VolumeInfo` built without arguments holds its placeholder. */
  lemma DefaultVolumeInfo()
    ensures VolumeInfo().title == "Title not available"
    ensures VolumeInfo().authors == ["Author not available"]
    ensures VolumeInfo().publishedDate == "Publication date not available"
    ensures VolumeInfo().description == "Description not available"
    ensures VolumeInfo().imageLinks == ImageLinks("Image not available")
    ensures VolumeInfo().categories.None? && VolumeInfo().language.None?
  {
  }

  /**
   * Defaults are per field: supplying some arguments leaves the others at
   * their placeholders, and the default author list is never empty.
   */
  lemma DefaultsArePerField(title: string, authors: seq<string>)
    ensures VolumeInfo(title := title).authors == VolumeInfo().authors
    ensures VolumeInfo(authors := authors).title == TitleNotAvailable
    ensures VolumeInfo(title := title) == VolumeInfo().(title := title)
    ensures |VolumeInfo(title := title).authors| == 1
  {
  }

  /** Nothing ties the reported `totalItems` to the number of `items` carried. */
  lemma TotalItemsIndependentOfItems()
    ensures exists r: ApiResponse :: r.totalItems as int != |r.items|
  {
    var r := ApiResponse("books#volumes", 5, []);
    assert r.totalItems as int != |r.items|;
  }
}

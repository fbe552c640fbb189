/**
 * The Open Library payloads: search documents, the search reply and the
 * work record, with `getDescription`. Every property Kotlin declares as
 * nullable with a `null` default is an `Option` defaulting to `None`.
 */
module OpenLibrary {
  import opened Wrappers
  import opened Kotlin

  const NoDescriptionAvailable := "No description available"
  const DescriptionTypePrefix := "Description type: "

  datatype Availability = Availability(
    status: string,
    availableToBorrow: bool,
    availableToBrowse: bool)

  /** One document of a search reply; only `key` and `title` are required. */
  datatype OpenLibraryBook = OpenLibraryBook(
    key: string,
    title: string,
    authorName: Option<seq<string>> := None,
    firstPublishYear: Option<Int32> := None,
    coverI: Option<Int32> := None,
    isbn: Option<seq<string>> := None,
    publisher: Option<seq<string>> := None,
    language: Option<seq<string>> := None,
    availability: Option<Availability> := None)

  datatype OpenLibraryResponse = OpenLibraryResponse(
    docs: seq<OpenLibraryBook>,
    numFound: Int32,
    start: Int32,
    numFoundExact: bool)

  /** A work description object: `type` may be missing, `value` may not. */
  datatype Description = Description(descriptionType: Option<string> := None, value: string)

  datatype AuthorReference = AuthorReference(key: string)
  datatype TypeReference = TypeReference(key: string)
  datatype Author = Author(author: AuthorReference, authorType: TypeReference)
  datatype Excerpt = Excerpt(excerpt: string, comment: Option<string> := None, author: Option<AuthorReference> := None)
  datatype Link = Link(url: string, title: string, linkType: Option<TypeReference> := None)

  /** A work record; only `key` and `title` are required. */
  datatype OpenLibraryWork = OpenLibraryWork(
    key: string,
    title: string,
    description: Option<Description> := None,
    authors: Option<seq<Author>> := None,
    firstPublishDate: Option<string> := None,
    covers: Option<seq<Int32>> := None,
    subjects: Option<seq<string>> := None,
    subjectPlaces: Option<seq<string>> := None,
    subjectTimes: Option<seq<string>> := None,
    subjectPeople: Option<seq<string>> := None,
    excerpts: Option<seq<Excerpt>> := None,
    links: Option<seq<Link>> := None)

  /** A search document built from its two required fields has every other field `null`. */
  lemma BookOptionalFieldsDefaultToNull(key: string, title: string)
    ensures var b := OpenLibraryBook(key, title);
      && b.key == key && b.title == title
      && b.authorName.None? && b.firstPublishYear.None? && b.coverI.None?
      && b.isbn.None? && b.publisher.None? && b.language.None? && b.availability.None?
  {
  }

  /** A work built from its two required fields has no description, authors, date, covers or subjects. */
  lemma WorkOptionalFieldsDefaultToNull(key: string, title: string)
    ensures var w := OpenLibraryWork(key, title);
      && w.key == key && w.title == title
      && w.description.None? && w.authors.None? && w.firstPublishDate.None?
      && w.covers.None? && w.subjects.None?
  {
  }

  /** `description?.value`: null exactly when the description is. */
  function DescriptionValue(d: Option<Description>): Option<string> {
    match d
    case Some(x) => Some(x.value)
    case None => None
  }

  /** `description?.type`. */
  function DescriptionTypeTag(d: Option<Description>): Option<string> {
    match d
    case Some(x) => x.descriptionType
    case None => None
  }

  /**
   * `OpenLibraryWork.getDescription()`: the three guards of its `when`, in
   * order. The description's value when there is one, otherwise the text
   * for a missing description.
   */
  function GetDescription(w: OpenLibraryWork): (r: string)
    ensures w.description.Some? ==> r == w.description.value.value
    ensures w.description.None? ==> r == NoDescriptionAvailable
  {
    match (DescriptionValue(w.description), DescriptionTypeTag(w.description))
    case (Some(v), _) => v
    case (None, Some(t)) => DescriptionTypePrefix + t
    case (None, None) => NoDescriptionAvailable
  }

  /**
   * The `"Description type: …"` branch is dead: whenever the first guard
   * fails (`description?.value` is null) the second fails too, because a
   * present description always carries a non-null value.
   */
  lemma TypeBranchUnreachable(w: OpenLibraryWork)
    ensures DescriptionValue(w.description).None? ==> DescriptionTypeTag(w.description).None?
  {
  }

  /** So the type tag never influences the result. */
  lemma GetDescriptionIgnoresType(w: OpenLibraryWork, t: Option<string>)
    requires w.description.Some?
    ensures GetDescription(w.(description := Some(w.description.value.(descriptionType := t))))
         == GetDescription(w)
  {
  }
}

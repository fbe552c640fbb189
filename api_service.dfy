/**
 * The two catalogue services. Their endpoints are network I/O; what is
 * modelled is the request each call describes (with the interfaces'
 * default arguments) and the one computation in the file, the Open
 * Library cover URL.
 */
module ApiService {
  import opened Wrappers
  import opened Kotlin

  // ---------------------------------------------------------------------
  // Requests
  // ---------------------------------------------------------------------

  /** A call on `GoogleBooksApiService`, with the parameter defaults it declares. */
  datatype GoogleBooksCall =
    | SearchBooks(
        searchQuery: string,
        maxResults: Int32 := 10,
        startIndex: Int32 := 0,
        orderBy: string := "relevance",
        printType: string := "all")
    | GetBookDetails(volumeId: string)
    | GetBookshelves(userId: string)
    | GetBookshelfVolumes(userId: string, shelf: string)
    | AddToBookshelf(shelf: string, volumeId: string)
    | RemoveFromBookshelf(shelf: string, volumeId: string)

  const SearchFields := "key,title,author_name,first_publish_year,cover_i,isbn,publisher,language,availability"

  /** A call on `OpenLibraryApiService`, with the parameter defaults it declares. */
  datatype OpenLibraryCall =
    | Search(query: string, page: Int32 := 1, limit: Int32 := 10, fields: string := SearchFields)
    | GetWorkDetails(workId: string)
    | GetBookByIsbn(isbn: string)

  /** A Google search given only its query asks for the first ten results by relevance, all print types. */
  lemma GoogleSearchDefaults(q: string)
    ensures var c := GoogleBooksCall.SearchBooks(q);
      c.maxResults == 10 && c.startIndex == 0 && c.orderBy == "relevance" && c.printType == "all"
  {
  }

  /** An Open Library search given only its query asks for page 1 with 10 documents. */
  lemma OpenLibrarySearchDefaults(q: string)
    ensures var c := OpenLibraryCall.Search(q);
      c.page == 1 && c.limit == 10 && c.fields == SearchFields
  {
  }

  // ---------------------------------------------------------------------
  // Cover URLs
  // ---------------------------------------------------------------------

  const CoversBaseUrl := "https://covers.openlibrary.org/b"
  const SmallSize := "S"
  const MediumSize := "M"
  const LargeSize := "L"
  const InvalidSizeMessage := "Invalid size parameter. Use S, M, or L"

  predicate IsCoverSize(size: string) {
    size in [SmallSize, MediumSize, LargeSize]
  }

  /** The text in front of the cover id. */
  const CoverIdPrefix := CoversBaseUrl + "/id/"

  /**
   * `OpenLibraryApiService.getCoverUrl`. A size other than S, M or L fails
   * the `require` (an `IllegalArgumentException` with the message below).
   */
  function GetCoverUrl(coverId: Int32, size: string := MediumSize): (r: Result<string, string>)
    ensures r.Success? <==> IsCoverSize(size)
    ensures r.Failure? ==> r.error == InvalidSizeMessage
    ensures r.Success? ==> StartsWith(r.value, "https://covers.openlibrary.org/b/id/")
  {
    if IsCoverSize(size) then
      StartsWithConcat(CoverIdPrefix, IntToString(coverId as int) + "-" + size + ".jpg");
      assert CoverIdPrefix + (IntToString(coverId as int) + "-" + size + ".jpg")
          == CoversBaseUrl + "/id/" + IntToString(coverId as int) + "-" + size + ".jpg";
      Success(CoversBaseUrl + "/id/" + IntToString(coverId as int) + "-" + size + ".jpg")
    else
      Failure(InvalidSizeMessage)
  }

  /**
   * Reads a cover URL back: the id is the text between `/id/` and the
   * dash in front of the one-letter size, and the size is the letter in
   * front of `.jpg`. `None` for any text not of that shape.
   */
  function ParseCoverUrl(u: string): Option<(int, string)> {
    var p := CoverIdPrefix;
    if |u| < |p| + 4 || u[..|p|] != p || u[|u| - 4..] != ".jpg" then None
    else
      var mid := u[|p|..|u| - 4];
      if |mid| < 2 || mid[|mid| - 2] != '-' || !IsCoverSize(mid[|mid| - 1..]) then None
      else
        match ParseInt(mid[..|mid| - 2])
        case Some(id) => Some((id, mid[|mid| - 1..]))
        case None => None
  }

  /** Round trip: a cover URL gives back the id and the size it was made from. */
  lemma CoverUrlRoundTrip(coverId: Int32, size: string)
    requires IsCoverSize(size)
    ensures GetCoverUrl(coverId, size).Success?
    ensures ParseCoverUrl(GetCoverUrl(coverId, size).value) == Some((coverId as int, size))
  {
    var d := IntToString(coverId as int);
    var p := CoverIdPrefix;
    var u := GetCoverUrl(coverId, size).value;
    assert u == p + (d + "-" + size) + ".jpg";
    assert u[..|p|] == p;
    assert u[|u| - 4..] == ".jpg";
    var mid := u[|p|..|u| - 4];
    assert mid == d + "-" + size;
    assert mid[..|mid| - 2] == d;
    assert mid[|mid| - 1..] == size;
    ParseIntToString(coverId as int);
  }

  /** Distinct (id, size) pairs give distinct cover URLs. */
  lemma CoverUrlInjective(a: Int32, s: string, b: Int32, t: string)
    requires IsCoverSize(s) && IsCoverSize(t)
    requires GetCoverUrl(a, s) == GetCoverUrl(b, t)
    ensures a == b && s == t
  {
    CoverUrlRoundTrip(a, s);
    CoverUrlRoundTrip(b, t);
  }

  /**
   * The reader accepts only the exact text the template writes: a URL that
   * reads back as (id, size) is the base, `/id/`, the id in plain decimal
   * (no zero-padding), a dash, the size and `.jpg`.
   */
  lemma ParsedCoverUrlShape(u: string)
    requires ParseCoverUrl(u).Some?
    ensures u == CoverIdPrefix + IntToString(ParseCoverUrl(u).value.0) + "-" + ParseCoverUrl(u).value.1 + ".jpg"
  {
    var p := CoverIdPrefix;
    var mid := u[|p|..|u| - 4];
    var idText := mid[..|mid| - 2];
    var id := ParseCoverUrl(u).value.0;
    ParseIntCanonical(idText, id);
    assert mid == idText + "-" + mid[|mid| - 1..];
    assert u == u[..|p|] + mid + u[|u| - 4..];
  }

  /** So no two texts read back as the same (id, size): the cover URL is unique. */
  lemma ParseCoverUrlInjective(u: string, v: string)
    requires ParseCoverUrl(u).Some? && ParseCoverUrl(u) == ParseCoverUrl(v)
    ensures u == v
  {
    ParsedCoverUrlShape(u);
    ParsedCoverUrlShape(v);
  }

  /** The image placeholder is not a cover URL, so a synthesized thumbnail is never mistaken for it. */
  lemma PlaceholderIsNotCoverUrl()
    ensures ParseCoverUrl("Image not available") == None
  {
  }
}

/**
 * The `q` parameter both repositories send to Google Books:
 * `"$searchType:$query"`, and how to take it apart again.
 */
module QueryString {
  import opened Wrappers

  /** `"$searchType:$query"`: the type, a colon, then the query text. */
  function ComposeQuery(searchType: string, query: string): (q: string)
    ensures |q| == |searchType| + 1 + |query|
    ensures q[..|searchType|] == searchType && q[|searchType|] == ':'
    ensures q[|searchType| + 1..] == query
  {
    searchType + ":" + query
  }

  /** The position of the first colon of `s`, if any. */
  function IndexOfColon(s: string): (r: Option<nat>)
    ensures r.Some? ==> r.value < |s| && s[r.value] == ':' && ':' !in s[..r.value]
    ensures r.None? ==> ':' !in s
  {
    if s == [] then None
    else if s[0] == ':' then Some(0)
    else
      match IndexOfColon(s[1..])
      case Some(i) =>
        assert s[..i + 1] == [s[0]] + s[1..][..i];
        Some(i + 1)
      case None =>
        assert s == [s[0]] + s[1..];
        None
  }

  /** Splits a query at its first colon into (search type, query text). */
  function SplitQuery(q: string): Option<(string, string)> {
    match IndexOfColon(q)
    case Some(i) => Some((q[..i], q[i + 1..]))
    case None => None
  }

  /**
   * Round trip: for a colon-free search type (`intitle`, `inauthor`,
   * `subject`, `title`, ...) the composed query splits back into the type
   * and the query text, whatever colons the query text contains.
   */
  lemma SplitComposeQuery(searchType: string, query: string)
    requires ':' !in searchType
    ensures SplitQuery(ComposeQuery(searchType, query)) == Some((searchType, query))
  {
    var q := ComposeQuery(searchType, query);
    assert q[|searchType|] == ':';
  }

  /** Hence, over colon-free search types, distinct (type, query) pairs send distinct queries. */
  lemma ComposeQueryInjective(t1: string, q1: string, t2: string, q2: string)
    requires ':' !in t1 && ':' !in t2
    requires ComposeQuery(t1, q1) == ComposeQuery(t2, q2)
    ensures t1 == t2 && q1 == q2
  {
    SplitComposeQuery(t1, q1);
    SplitComposeQuery(t2, q2);
  }

  /** The colon-free condition is needed: a type containing a colon can collide with another pair. */
  lemma ColonInTypeCollides()
    ensures ComposeQuery("a:b", "c") == ComposeQuery("a", "b:c")
  {
    assert ComposeQuery("a:b", "c") == "a:b:c";
    assert ComposeQuery("a", "b:c") == "a:b:c";
  }
}

/** `data.Repository` / `NetworkRepository`: search and detail calls forwarded to the service. */
module DataRepository {
  import opened Kotlin
  import opened QueryString
  import ApiService

  /** A call on the `Repository` interface, with its arguments. */
  datatype Call =
    | SearchBooks(query: string, searchType: string, maxResults: Int32, startIndex: Int32)
    | GetBookDetails(volumeId: string)

  /**
   * The service call `NetworkRepository` makes for a repository call. Its
   * reply is returned to the caller as it is.
   */
  function Forward(c: Call): (r: ApiService.GoogleBooksCall)
    ensures c.SearchBooks? ==>
      && r.SearchBooks?
      && r.searchQuery == ComposeQuery(c.searchType, c.query)
      && r.maxResults == c.maxResults && r.startIndex == c.startIndex
      && r.orderBy == "relevance" && r.printType == "all"
    ensures c.GetBookDetails? ==> r.GetBookDetails? && r.volumeId == c.volumeId
  {
    match c
    case SearchBooks(query, searchType, maxResults, startIndex) =>
      ApiService.GoogleBooksCall.SearchBooks(ComposeQuery(searchType, query), maxResults, startIndex)
    case GetBookDetails(volumeId) =>
      ApiService.GoogleBooksCall.GetBookDetails(volumeId)
  }

  predicate ColonFreeType(c: Call) {
    c.SearchBooks? ==> ':' !in c.searchType
  }

  /** Forwarding loses nothing: over colon-free search types the service call determines the repository call. */
  lemma ForwardInjective(c1: Call, c2: Call)
    requires ColonFreeType(c1) && ColonFreeType(c2)
    requires Forward(c1) == Forward(c2)
    ensures c1 == c2
  {
    if c1.SearchBooks? {
      ComposeQueryInjective(c1.searchType, c1.query, c2.searchType, c2.query);
    }
  }
}

/** `model.Repository` / `NetworkRepository`: search, detail and bookshelf calls forwarded to the service. */
module ModelRepository {
  import opened Kotlin
  import opened QueryString
  import ApiService

  /** A call on the `Repository` interface, with its arguments. */
  datatype Call =
    | SearchBooks(query: string, searchType: string, maxResults: Int32, startIndex: Int32)
    | GetBookDetails(volumeId: string)
    | GetBookshelves(userId: string)
    | GetBookshelfVolumes(userId: string, shelf: string)
    | AddToBookshelf(shelf: string, volumeId: string)
    | RemoveFromBookshelf(shelf: string, volumeId: string)

  /**
   * The service call `NetworkRepository` makes for a repository call: the
   * search query is composed, every other argument goes through as it is
   * and in the same order, and the reply is returned as it is.
   */
  function Forward(c: Call): (r: ApiService.GoogleBooksCall)
    ensures c.SearchBooks? ==>
      && r.SearchBooks?
      && r.searchQuery == ComposeQuery(c.searchType, c.query)
      && r.maxResults == c.maxResults && r.startIndex == c.startIndex
      && r.orderBy == "relevance" && r.printType == "all"
    ensures c.GetBookDetails? ==> r.GetBookDetails? && r.volumeId == c.volumeId
    ensures c.GetBookshelves? ==> r.GetBookshelves? && r.userId == c.userId
    ensures c.GetBookshelfVolumes? ==> r.GetBookshelfVolumes? && r.userId == c.userId && r.shelf == c.shelf
    ensures c.AddToBookshelf? ==> r.AddToBookshelf? && r.shelf == c.shelf && r.volumeId == c.volumeId
    ensures c.RemoveFromBookshelf? ==> r.RemoveFromBookshelf? && r.shelf == c.shelf && r.volumeId == c.volumeId
  {
    match c
    case SearchBooks(query, searchType, maxResults, startIndex) =>
      ApiService.GoogleBooksCall.SearchBooks(ComposeQuery(searchType, query), maxResults, startIndex)
    case GetBookDetails(volumeId) => ApiService.GoogleBooksCall.GetBookDetails(volumeId)
    case GetBookshelves(userId) => ApiService.GoogleBooksCall.GetBookshelves(userId)
    case GetBookshelfVolumes(userId, shelf) => ApiService.GoogleBooksCall.GetBookshelfVolumes(userId, shelf)
    case AddToBookshelf(shelf, volumeId) => ApiService.GoogleBooksCall.AddToBookshelf(shelf, volumeId)
    case RemoveFromBookshelf(shelf, volumeId) => ApiService.GoogleBooksCall.RemoveFromBookshelf(shelf, volumeId)
  }

  predicate ColonFreeType(c: Call) {
    c.SearchBooks? ==> ':' !in c.searchType
  }

  /**
   * Forwarding loses nothing and mixes nothing up: over colon-free search
   * types the service call determines the repository call, so an add is
   * never sent as a remove and no two arguments trade places.
   */
  lemma ForwardInjective(c1: Call, c2: Call)
    requires ColonFreeType(c1) && ColonFreeType(c2)
    requires Forward(c1) == Forward(c2)
    ensures c1 == c2
  {
    if c1.SearchBooks? {
      ComposeQueryInjective(c1.searchType, c1.query, c2.searchType, c2.query);
    }
  }
}

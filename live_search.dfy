/**
 * The live search of the `viewModel` package: search-as-you-type with a
 * 300 ms debounce, a Google Books / Open Library switch and a search-type
 * switch, plus the mapping of Open Library search documents into the
 * canonical record.
 *
 * Asynchrony is made explicit. The debounce coroutine (`searchJob`) is the
 * flag `searchJobPending`; its firing after the delay is `FireDebounced`.
 * A repository call is recorded in `requests` and counted in `inFlight`
 * until one of its callbacks (`OnSearchResult`, `OnSearchFailure`) runs.
 */
module LiveSearch {
  import opened Wrappers
  import opened Kotlin
  import opened Book
  import opened OpenLibrary
  import opened States
  import opened Network
  import ApiService
  import Paging
  import ModelRepository

  const UnknownErrorMessage := "Unknown error occurred"
  const InitialSearchType := "title"

  /** The repository's search reply: the results of both providers. */
  datatype CombinedResult = CombinedResult(googleBooks: seq<Item>, openLibraryBooks: seq<OpenLibraryBook>)

  // ---------------------------------------------------------------------
  // mapToGoogleBooksFormat
  // ---------------------------------------------------------------------

  /** `cover_i?.let { getCoverUrl(it) } ?: "Image not available"`: a medium-size cover. */
  function CoverThumbnail(coverI: Option<Int32>): (t: string)
    ensures coverI.Some? ==> ApiService.GetCoverUrl(coverI.value).Success? && t == ApiService.GetCoverUrl(coverI.value).value
    ensures coverI.None? ==> t == ImageNotAvailable
  {
    match coverI
    case Some(c) => ApiService.GetCoverUrl(c).value
    case None => ImageNotAvailable
  }

  /** `first_publish_year?.toString() ?: "Publication date not available"`. */
  function PublishedYear(year: Option<Int32>): (d: string)
    ensures year.Some? ==> ParseInt(d) == Some(year.value as int)
    ensures year.None? ==> d == PublicationDateNotAvailable && ParseInt(d).None?
  {
    match year
    case Some(y) =>
      ParseIntToString(y as int);
      IntToString(y as int)
    case None =>
      assert PublicationDateNotAvailable[0] == 'P';
      PublicationDateNotAvailable
  }

  /** One search document as a canonical record; the description keeps the record's placeholder. */
  function MapDoc(book: OpenLibraryBook): (item: Item)
    ensures item.id == book.key && item.volumeInfo.title == book.title
    ensures book.authorName.Some? ==> item.volumeInfo.authors == book.authorName.value
    ensures book.authorName.None? ==> item.volumeInfo.authors == [AuthorNotAvailable]
    ensures book.firstPublishYear.Some? ==> item.volumeInfo.publishedDate == IntToString(book.firstPublishYear.value as int)
    ensures book.firstPublishYear.None? ==> item.volumeInfo.publishedDate == "Publication date not available"
    ensures book.coverI.Some? ==> item.volumeInfo.imageLinks.thumbnail == ApiService.GetCoverUrl(book.coverI.value, "M").value
    ensures book.coverI.None? ==> item.volumeInfo.imageLinks.thumbnail == "Image not available"
    ensures item.volumeInfo.description == DescriptionNotAvailable
    ensures item.volumeInfo.categories.None? && item.volumeInfo.language.None?
  {
    Item(
      id := book.key,
      volumeInfo := VolumeInfo(
        title := book.title,
        authors := book.authorName.GetOr([AuthorNotAvailable]),
        publishedDate := PublishedYear(book.firstPublishYear),
        imageLinks := ImageLinks(thumbnail := CoverThumbnail(book.coverI))))
  }

  /** `List<OpenLibraryBook>.mapToGoogleBooksFormat()`: one record per document, in order. */
  function MapToGoogleBooksFormat(books: seq<OpenLibraryBook>): (items: seq<Item>)
    ensures |items| == |books|
    ensures forall i :: 0 <= i < |books| ==> items[i] == MapDoc(books[i])
  {
    if books == [] then [] else [MapDoc(books[0])] + MapToGoogleBooksFormat(books[1..])
  }

  /**
   * The record keeps the document's cover id and publication year: both
   * can be read back from the thumbnail and the date, and a missing one
   * leaves a placeholder that reads back as nothing.
   */
  lemma MapDocRecoversCoverAndYear(book: OpenLibraryBook)
    ensures var v := MapDoc(book).volumeInfo;
      && ApiService.ParseCoverUrl(v.imageLinks.thumbnail)
         == (if book.coverI.Some? then Some((book.coverI.value as int, "M")) else None)
      && ParseInt(v.publishedDate)
         == (if book.firstPublishYear.Some? then Some(book.firstPublishYear.value as int) else None)
  {
    var v := MapDoc(book).volumeInfo;
    if book.coverI.Some? {
      ApiService.CoverUrlRoundTrip(book.coverI.value, "M");
    } else {
      ApiService.PlaceholderIsNotCoverUrl();
    }
    if book.firstPublishYear.Some? {
      ParseIntToString(book.firstPublishYear.value as int);
    } else {
      assert v.publishedDate[0] == 'P';
    }
  }

  /**
   * Authors fall back only when the list is missing: an empty
   * `author_name` gives a record with no authors at all, and a document
   * whose only author is literally "Author not available" maps to the same
   * record as one without authors.
   */
  lemma MapDocAuthorsFallbackOnlyOnNull(key: string, title: string)
    ensures MapDoc(OpenLibraryBook(key, title, authorName := Some([]))).volumeInfo.authors == []
    ensures MapDoc(OpenLibraryBook(key, title, authorName := Some([AuthorNotAvailable])))
         == MapDoc(OpenLibraryBook(key, title))
  {
  }

  // ---------------------------------------------------------------------
  // SearchViewModel
  // ---------------------------------------------------------------------

  class SearchViewModel {
    var userInput: string
    var searchUiState: UiState<seq<Item>>
    var searchType: string
    var useGoogleBooks: bool
    /** `searchJob` is alive: a debounced search is waiting for its delay to end. */
    var searchJobPending: bool
    var currentPage: Int32
    /** The calls made on the repository so far, oldest first. */
    var requests: seq<ModelRepository.Call>
    /** Calls whose callback has not run yet. */
    var inFlight: nat

    /**
     * The stored input is empty or non-blank; a pending search is for a
     * non-blank input; the page never moves from 0; and the screen shows
     * `Loading` only while some call is outstanding, so a reply always
     * ends it.
     */
    ghost predicate Valid()
      reads this
    {
      && currentPage == 0
      && (userInput == "" || !IsBlank(userInput))
      && (searchJobPending ==> !IsBlank(userInput))
      && (searchUiState.Loading? ==> inFlight > 0)
    }

    /** The call `searchBooks` makes for the current input and type. */
    function SearchCall(): ModelRepository.Call
      reads this
    {
      ModelRepository.Call.SearchBooks(userInput, searchType, Paging.ItemsPerPage, Paging.StartIndex(currentPage))
    }

    constructor()
      ensures Valid()
      ensures userInput == "" && searchUiState == UiState.Success([])
      ensures searchType == "title" && useGoogleBooks
      ensures !searchJobPending && currentPage == 0
      ensures requests == [] && inFlight == 0
    {
      userInput := "";
      searchUiState := UiState.Success([]);
      searchType := InitialSearchType;
      useGoogleBooks := true;
      searchJobPending := false;
      currentPage := 0;
      requests := [];
      inFlight := 0;
    }

    /**
     * `searchBooks`: a blank input shows an empty result and calls nothing;
     * otherwise the first page of ten is requested and the screen shows
     * `Loading` until the reply.
     */
    method SearchBooks()
      requires Valid()
      modifies this`searchUiState, this`currentPage, this`requests, this`inFlight
      ensures Valid()
      ensures IsBlank(userInput) ==>
        searchUiState == UiState.Success([]) && requests == old(requests) && inFlight == old(inFlight)
      ensures !IsBlank(userInput) ==>
        && searchUiState == UiState.Loading && currentPage == 0
        && requests == old(requests) + [ModelRepository.Call.SearchBooks(userInput, searchType, 10, 0)]
        && inFlight == old(inFlight) + 1
    {
      if IsBlank(userInput) {
        searchUiState := UiState.Success([]);
        return;
      }
      searchUiState := UiState.Loading;
      currentPage := 0;
      requests := requests + [SearchCall()];
      inFlight := inFlight + 1;
    }

    /** `toggleApiSource`: switch provider; search again at once only if there is input. */
    method ToggleApiSource()
      requires Valid()
      modifies this`useGoogleBooks, this`searchUiState, this`currentPage, this`requests, this`inFlight
      ensures Valid()
      ensures useGoogleBooks == !old(useGoogleBooks)
      ensures !IsBlank(userInput) ==>
        && searchUiState == UiState.Loading
        && requests == old(requests) + [ModelRepository.Call.SearchBooks(userInput, searchType, 10, 0)]
        && inFlight == old(inFlight) + 1
      ensures IsBlank(userInput) ==>
        searchUiState == old(searchUiState) && requests == old(requests) && inFlight == old(inFlight)
    {
      useGoogleBooks := !useGoogleBooks;
      if !IsBlank(userInput) {
        SearchBooks();
      }
    }

    /** `updateSearchType`: store the type; search again at once only if there is input. */
    method UpdateSearchType(newType: string)
      requires Valid()
      modifies this`searchType, this`searchUiState, this`currentPage, this`requests, this`inFlight
      ensures Valid()
      ensures searchType == newType
      ensures !IsBlank(userInput) ==>
        && searchUiState == UiState.Loading
        && requests == old(requests) + [ModelRepository.Call.SearchBooks(userInput, newType, 10, 0)]
        && inFlight == old(inFlight) + 1
      ensures IsBlank(userInput) ==>
        searchUiState == old(searchUiState) && requests == old(requests) && inFlight == old(inFlight)
    {
      searchType := newType;
      if !IsBlank(userInput) {
        SearchBooks();
      }
    }

    /**
     * `updateUserInput`: cancel any waiting search; a blank input clears
     * everything, any other input is stored and starts exactly one new
     * debounced search. Nothing is sent to the repository yet.
     */
    method UpdateUserInput(input: string)
      requires Valid()
      modifies this`userInput, this`searchJobPending, this`searchUiState, this`currentPage
      ensures Valid()
      ensures IsBlank(input) ==>
        userInput == "" && searchUiState == UiState.Success([]) && currentPage == 0 && !searchJobPending
      ensures !IsBlank(input) ==>
        userInput == input && searchJobPending && searchUiState == old(searchUiState)
    {
      userInput := input;
      searchJobPending := false;
      if IsBlank(input) {
        ClearUserInput();
        return;
      }
      searchJobPending := true;
    }

    /** `clearUserInput`: empty input, empty result, first page, no waiting search. */
    method ClearUserInput()
      requires (searchUiState.Loading? ==> inFlight > 0) && currentPage == 0
      modifies this`userInput, this`searchUiState, this`currentPage, this`searchJobPending
      ensures Valid()
      ensures userInput == "" && searchUiState == UiState.Success([]) && currentPage == 0 && !searchJobPending
    {
      userInput := "";
      searchUiState := UiState.Success([]);
      currentPage := 0;
      searchJobPending := false;
    }

    /** The debounce delay of the waiting search ends: it runs `searchBooks`. */
    method FireDebounced()
      requires Valid() && searchJobPending
      modifies this`searchJobPending, this`searchUiState, this`currentPage, this`requests, this`inFlight
      ensures Valid()
      ensures !searchJobPending && searchUiState == UiState.Loading
      ensures requests == old(requests) + [ModelRepository.Call.SearchBooks(userInput, searchType, 10, 0)]
      ensures inFlight == old(inFlight) + 1
    {
      searchJobPending := false;
      SearchBooks();
    }

    /**
     * The success callback of a search. Which list is shown is decided by
     * the provider switch as it is NOW, not as it was when the call was
     * made; any reply is accepted, however stale.
     */
    method OnSearchResult(result: NetworkResult<CombinedResult>)
      requires Valid() && inFlight > 0
      modifies this`searchUiState, this`inFlight
      ensures Valid() && inFlight == old(inFlight) - 1
      ensures result.Success? ==> searchUiState == UiState.Success(
        if useGoogleBooks then result.data.googleBooks
        else MapToGoogleBooksFormat(result.data.openLibraryBooks))
      ensures result.Error? ==> searchUiState == UiState.Error(result.exception.message.GetOr(UnknownErrorMessage))
    {
      inFlight := inFlight - 1;
      match result
      case Success(data) =>
        var items := if useGoogleBooks then data.googleBooks else MapToGoogleBooksFormat(data.openLibraryBooks);
        searchUiState := UiState.Success(items);
      case Error(exception) =>
        searchUiState := UiState.Error(exception.message.GetOr(UnknownErrorMessage));
    }

    /** The error callback of a search. */
    method OnSearchFailure(error: Throwable)
      requires Valid() && inFlight > 0
      modifies this`searchUiState, this`inFlight
      ensures Valid() && inFlight == old(inFlight) - 1
      ensures searchUiState == UiState.Error(error.message.GetOr(UnknownErrorMessage))
    {
      inFlight := inFlight - 1;
      searchUiState := UiState.Error(error.message.GetOr(UnknownErrorMessage));
    }
  }

  // ---------------------------------------------------------------------
  // Runs of the view model
  // ---------------------------------------------------------------------

  /**
   * Keystrokes within one debounce window: each cancels the waiting search,
   * so three edits followed by one quiet period make exactly one call, for
   * the last text.
   */
  method KeystrokesThenQuietPeriod() returns (calls: seq<ModelRepository.Call>, state: UiState<seq<Item>>)
    ensures calls == [ModelRepository.Call.SearchBooks("dun", "title", 10, 0)]
    ensures state == UiState.Loading
  {
    var vm := new SearchViewModel();
    assert "d"[0] == 'd' && "du"[0] == 'd' && "dun"[0] == 'd';
    vm.UpdateUserInput("d");
    vm.UpdateUserInput("du");
    vm.UpdateUserInput("dun");
    vm.FireDebounced();
    calls, state := vm.requests, vm.searchUiState;
  }

  /**
   * Nothing guards against late replies: a reply to a search made before
   * the input was cleared still replaces the empty result, so the screen
   * shows results while the input is empty.
   */
  method LateReplyAfterClear(item: Item) returns (input: string, state: UiState<seq<Item>>)
    ensures input == "" && state == UiState.Success([item])
  {
    var vm := new SearchViewModel();
    assert "dune"[0] == 'd';
    vm.UpdateUserInput("dune");
    vm.FireDebounced();
    vm.UpdateUserInput("");
    vm.OnSearchResult(NetworkResult.Success(CombinedResult([item], [])));
    input, state := vm.userInput, vm.searchUiState;
  }

  /**
   * The provider switch is read when a reply arrives: a reply to a call
   * made while Google Books was selected is shown as Open Library results
   * if the switch was flipped meanwhile.
   */
  method ReplyFollowsCurrentSource(g: Item, doc: OpenLibraryBook) returns (state: UiState<seq<Item>>)
    ensures state == UiState.Success([MapDoc(doc)])
  {
    var vm := new SearchViewModel();
    assert "dune"[0] == 'd';
    vm.UpdateUserInput("dune");
    vm.FireDebounced();
    vm.ToggleApiSource();
    vm.OnSearchResult(NetworkResult.Success(CombinedResult([g], [doc])));
    assert MapToGoogleBooksFormat([doc]) == [MapDoc(doc)];
    state := vm.searchUiState;
  }
}

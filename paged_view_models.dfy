/**
 * `BookShelfViewModel` (ui/screen): a search submitted on demand, paged
 * ten at a time with results accumulated, plus a book-detail fetch and a
 * bookshelf-list fetch, each with its own state cell.
 *
 * Every `viewModelScope.launch` block is split at its suspension point:
 * the method that launches it records the repository call and counts it
 * as outstanding; the matching `On…` method is the block's remainder,
 * run when the call returns or throws.
 */
module BookShelf {
  import opened Wrappers
  import opened Kotlin
  import opened Book
  import opened States
  import opened Paging
  import ModelRepository

  const DetailsNetworkErrorPrefix := "Network error: "
  const BookshelvesErrorPrefix := "Error fetching bookshelves: "

  /** A shelf of `BookshelfResponse`; its fields are not part of this model. */
  type Bookshelf(==)

  datatype BookshelfResponse = BookshelfResponse(items: seq<Bookshelf>)

  /**
   * The message for a failed detail fetch: as for a failed search, but
   * with a lower-case "Network error: " for a network failure.
   */
  function DetailsFailureMessage(e: Throwable): (m: string)
    ensures e.kind.IOException? ==> StartsWith(m, DetailsNetworkErrorPrefix)
    ensures e.kind.IOException? ==> m[|DetailsNetworkErrorPrefix|..] == Interpolate(e.message)
    ensures !e.kind.IOException? ==> m == FetchFailureMessage(e)
    ensures e.kind.IOException? ==> m != FetchFailureMessage(e)
  {
    match e.kind
    case IOException =>
      var m := DetailsNetworkErrorPrefix + Interpolate(e.message);
      StartsWithConcat(DetailsNetworkErrorPrefix, Interpolate(e.message));
      assert m[8] == 'e' && FetchFailureMessage(e)[8] == 'E';
      m
    case _ => FetchFailureMessage(e)
  }

  /** The message for a failed bookshelf fetch: a fixed prefix, then the exception's text. */
  function BookshelvesFailureMessage(e: Throwable): (m: string)
    ensures StartsWith(m, BookshelvesErrorPrefix)
    ensures m[|BookshelvesErrorPrefix|..] == Interpolate(e.message)
  {
    StartsWithConcat(BookshelvesErrorPrefix, Interpolate(e.message));
    BookshelvesErrorPrefix + Interpolate(e.message)
  }

  class BookShelfViewModel {
    var userInput: string
    var bookShelfUiState: UiState<seq<Item>>
    var bookshelvesUiState: UiState<seq<Bookshelf>>
    var searchType: string
    var currentPage: Int32
    var bookDetailsState: UiState<Item>
    /** The calls made on the repository so far, oldest first. */
    var requests: seq<ModelRepository.Call>
    /** Outstanding searches, detail fetches and bookshelf fetches. */
    var searchesInFlight: nat
    var detailsInFlight: nat
    var bookshelvesInFlight: nat

    constructor()
      ensures userInput == "" && searchType == "intitle" && currentPage == 0
      ensures bookShelfUiState == UiState.Loading && bookshelvesUiState == UiState.Loading
      ensures bookDetailsState == UiState.Loading
      ensures requests == [] && searchesInFlight == 0 && detailsInFlight == 0 && bookshelvesInFlight == 0
    {
      userInput := "";
      bookShelfUiState := UiState.Loading;
      bookshelvesUiState := UiState.Loading;
      searchType := DefaultSearchType;
      currentPage := 0;
      bookDetailsState := UiState.Loading;
      requests := [];
      searchesInFlight, detailsInFlight, bookshelvesInFlight := 0, 0, 0;
    }

    /** The call `fetchBooks` makes: ten results from the current page's offset. */
    function SearchCall(): ModelRepository.Call
      reads this
    {
      ModelRepository.Call.SearchBooks(userInput, searchType, ItemsPerPage, StartIndex(currentPage))
    }

    /** `updateUserInput`: changes the input and nothing else. */
    method UpdateUserInput(input: string)
      modifies this`userInput
      ensures userInput == input
    {
      userInput := input;
    }

    /** `clearUserInput`: empties the input and changes nothing else. */
    method ClearUserInput()
      modifies this`userInput
      ensures userInput == ""
    {
      userInput := "";
    }

    /** `fetchBooks` up to its suspension point: the call is made. */
    method FetchBooks()
      modifies this`requests, this`searchesInFlight
      ensures requests == old(requests) + [SearchCall()]
      ensures searchesInFlight == old(searchesInFlight) + 1
    {
      requests := requests + [SearchCall()];
      searchesInFlight := searchesInFlight + 1;
    }

    /**
     * `searchBooks`: a blank input is refused with an error and no call;
     * otherwise the results are cleared to `Loading` and the first page is
     * requested.
     */
    method SearchBooks()
      modifies this`bookShelfUiState, this`currentPage, this`requests, this`searchesInFlight
      ensures IsBlank(userInput) ==>
        && bookShelfUiState == UiState.Error("Search query cannot be empty")
        && currentPage == old(currentPage) && requests == old(requests)
        && searchesInFlight == old(searchesInFlight)
      ensures !IsBlank(userInput) ==>
        && bookShelfUiState == UiState.Loading && currentPage == 0
        && requests == old(requests) + [ModelRepository.Call.SearchBooks(userInput, searchType, 10, 0)]
        && searchesInFlight == old(searchesInFlight) + 1
    {
      if IsBlank(userInput) {
        bookShelfUiState := UiState.Error(EmptyQueryMessage);
        return;
      }
      bookShelfUiState := UiState.Loading;
      currentPage := 0;
      FetchBooks();
    }

    /**
     * `loadNextPage`: the page counter goes up by one (in `Int`
     * arithmetic) and that page is requested; what is shown stays as it is.
     */
    method LoadNextPage()
      modifies this`currentPage, this`requests, this`searchesInFlight
      ensures currentPage == NextPage(old(currentPage))
      ensures old(currentPage) as int < IntMax ==> currentPage as int == old(currentPage) as int + 1
      ensures requests == old(requests) + [ModelRepository.Call.SearchBooks(userInput, searchType, 10, StartIndex(currentPage))]
      ensures searchesInFlight == old(searchesInFlight) + 1
    {
      currentPage := NextPage(currentPage);
      FetchBooks();
    }

    /** A search returns: its items are appended to those already shown, if any. */
    method OnFetchSuccess(response: ApiResponse)
      requires searchesInFlight > 0
      modifies this`bookShelfUiState, this`searchesInFlight
      ensures bookShelfUiState == UiState.Success(Accumulate(old(bookShelfUiState), response.items))
      ensures searchesInFlight == old(searchesInFlight) - 1
    {
      var currentItems := CurrentItems(bookShelfUiState);
      bookShelfUiState := UiState.Success(currentItems + response.items);
      searchesInFlight := searchesInFlight - 1;
    }

    /** A search throws: the error replaces whatever was shown. */
    method OnFetchFailure(e: Throwable)
      requires searchesInFlight > 0
      modifies this`bookShelfUiState, this`searchesInFlight
      ensures bookShelfUiState == UiState.Error(FetchFailureMessage(e))
      ensures searchesInFlight == old(searchesInFlight) - 1
    {
      bookShelfUiState := UiState.Error(FetchFailureMessage(e));
      searchesInFlight := searchesInFlight - 1;
    }

    /** `getBookDetails`: `Loading`, then the call for the volume. */
    method GetBookDetails(volumeId: string)
      modifies this`bookDetailsState, this`requests, this`detailsInFlight
      ensures bookDetailsState == UiState.Loading
      ensures requests == old(requests) + [ModelRepository.Call.GetBookDetails(volumeId)]
      ensures detailsInFlight == old(detailsInFlight) + 1
    {
      bookDetailsState := UiState.Loading;
      requests := requests + [ModelRepository.Call.GetBookDetails(volumeId)];
      detailsInFlight := detailsInFlight + 1;
    }

    method OnBookDetailsSuccess(bookDetails: Item)
      requires detailsInFlight > 0
      modifies this`bookDetailsState, this`detailsInFlight
      ensures bookDetailsState == UiState.Success(bookDetails)
      ensures detailsInFlight == old(detailsInFlight) - 1
    {
      bookDetailsState := UiState.Success(bookDetails);
      detailsInFlight := detailsInFlight - 1;
    }

    method OnBookDetailsFailure(e: Throwable)
      requires detailsInFlight > 0
      modifies this`bookDetailsState, this`detailsInFlight
      ensures bookDetailsState == UiState.Error(DetailsFailureMessage(e))
      ensures detailsInFlight == old(detailsInFlight) - 1
    {
      bookDetailsState := UiState.Error(DetailsFailureMessage(e));
      detailsInFlight := detailsInFlight - 1;
    }

    /** `getBookshelves`: `Loading`, then the call for the user's shelves. */
    method GetBookshelves(userId: string)
      modifies this`bookshelvesUiState, this`requests, this`bookshelvesInFlight
      ensures bookshelvesUiState == UiState.Loading
      ensures requests == old(requests) + [ModelRepository.Call.GetBookshelves(userId)]
      ensures bookshelvesInFlight == old(bookshelvesInFlight) + 1
    {
      bookshelvesUiState := UiState.Loading;
      requests := requests + [ModelRepository.Call.GetBookshelves(userId)];
      bookshelvesInFlight := bookshelvesInFlight + 1;
    }

    method OnBookshelvesSuccess(response: BookshelfResponse)
      requires bookshelvesInFlight > 0
      modifies this`bookshelvesUiState, this`bookshelvesInFlight
      ensures bookshelvesUiState == UiState.Success(response.items)
      ensures bookshelvesInFlight == old(bookshelvesInFlight) - 1
    {
      bookshelvesUiState := UiState.Success(response.items);
      bookshelvesInFlight := bookshelvesInFlight - 1;
    }

    method OnBookshelvesFailure(e: Throwable)
      requires bookshelvesInFlight > 0
      modifies this`bookshelvesUiState, this`bookshelvesInFlight
      ensures bookshelvesUiState == UiState.Error(BookshelvesFailureMessage(e))
      ensures bookshelvesInFlight == old(bookshelvesInFlight) - 1
    {
      bookshelvesUiState := UiState.Error(BookshelvesFailureMessage(e));
      bookshelvesInFlight := bookshelvesInFlight - 1;
    }
  }

  /**
   * A search, then the next page: the two calls ask for offsets 0 and 10,
   * and the second page's items are shown after the first page's.
   */
  method TwoPages(first: seq<Item>, second: seq<Item>)
    returns (calls: seq<ModelRepository.Call>, shown: UiState<seq<Item>>)
    ensures calls == [ModelRepository.Call.SearchBooks("dune", "intitle", 10, 0),
                      ModelRepository.Call.SearchBooks("dune", "intitle", 10, 10)]
    ensures shown == UiState.Success(first + second)
  {
    var vm := new BookShelfViewModel();
    vm.UpdateUserInput("dune");
    assert "dune"[0] == 'd';
    vm.SearchBooks();
    vm.OnFetchSuccess(ApiResponse("books#volumes", 0, first));
    vm.LoadNextPage();
    vm.OnFetchSuccess(ApiResponse("books#volumes", 0, second));
    calls, shown := vm.requests, vm.bookShelfUiState;
  }

  /**
   * The next page's reply overtaking a new search: nothing ties a reply to
   * the search it answers, so after `searchBooks` clears to `Loading`, a
   * reply still outstanding from the previous query is shown alone.
   */
  method StaleNextPageAfterNewSearch(old1: seq<Item>, stale: seq<Item>)
    returns (shown: UiState<seq<Item>>, outstanding: nat)
    ensures shown == UiState.Success(stale) && outstanding == 1
  {
    var vm := new BookShelfViewModel();
    vm.UpdateUserInput("dune");
    assert "dune"[0] == 'd';
    vm.SearchBooks();
    vm.OnFetchSuccess(ApiResponse("books#volumes", 0, old1));
    vm.LoadNextPage();
    vm.UpdateUserInput("emma");
    assert "emma"[0] == 'e';
    vm.SearchBooks();
    vm.OnFetchSuccess(ApiResponse("books#volumes", 0, stale));
    shown, outstanding := vm.bookShelfUiState, vm.searchesInFlight;
  }
}

/**
 * The search screen's `SearchViewModel` (ui/screen/searchScreen): the same
 * paged, accumulating search as `BookShelfViewModel`, with a publicly
 * assignable search type and a `searchResults` view of the state.
 */
module PagedSearch {
  import opened Wrappers
  import opened Kotlin
  import opened Book
  import opened States
  import opened Paging
  import DataRepository


  class SearchViewModel {
    var userInput: string
    var searchUiState: UiState<seq<Item>>
    var searchType: string
    var currentPage: Int32
    /** The calls made on the repository so far, oldest first. */
    var requests: seq<DataRepository.Call>
    /** Outstanding searches. */
    var inFlight: nat

    constructor()
      ensures userInput == "" && searchUiState == UiState.Loading && searchType == "intitle"
      ensures currentPage == 0 && requests == [] && inFlight == 0
    {
      userInput := "";
      searchUiState := UiState.Loading;
      searchType := DefaultSearchType;
      currentPage := 0;
      requests := [];
      inFlight := 0;
    }

    /** `searchResults`: the items of a `Success`, and nothing while loading or after an error. */
    function SearchResults(): (r: seq<Item>)
      reads this
      ensures searchUiState.Success? ==> r == searchUiState.value
      ensures !searchUiState.Success? ==> r == []
    {
      CurrentItems(searchUiState)
    }

    /** The public setter of `searchType`. */
    method SetSearchType(t: string)
      modifies this`searchType
      ensures searchType == t
    {
      searchType := t;
    }

    /** `updateUserInput`: changes the input and nothing else. */
    method UpdateUserInput(input: string)
      modifies this`userInput
      ensures userInput == input
    {
      userInput := input;
    }

    /** `clearUserInput`: empties the input and changes nothing else. */
    method ClearUserInput()
      modifies this`userInput
      ensures userInput == ""
    {
      userInput := "";
    }

    /** The call `fetchBooks` makes: ten results from the current page's offset. */
    function SearchCall(): DataRepository.Call
      reads this
    {
      DataRepository.Call.SearchBooks(userInput, searchType, ItemsPerPage, StartIndex(currentPage))
    }

    /** `fetchBooks` up to its suspension point: the call is made. */
    method FetchBooks()
      modifies this`requests, this`inFlight
      ensures requests == old(requests) + [SearchCall()]
      ensures inFlight == old(inFlight) + 1
    {
      requests := requests + [SearchCall()];
      inFlight := inFlight + 1;
    }

    /**
     * `searchBooks`: a blank input is refused with an error and no call;
     * otherwise `Loading`, back to the first page, and that page is requested.
     */
    method SearchBooks()
      modifies this`searchUiState, this`currentPage, this`requests, this`inFlight
      ensures IsBlank(userInput) ==>
        && searchUiState == UiState.Error("Search query cannot be empty")
        && currentPage == old(currentPage) && requests == old(requests) && inFlight == old(inFlight)
      ensures !IsBlank(userInput) ==>
        && searchUiState == UiState.Loading && currentPage == 0
        && requests == old(requests) + [DataRepository.Call.SearchBooks(userInput, searchType, 10, 0)]
        && inFlight == old(inFlight) + 1
    {
      if IsBlank(userInput) {
        searchUiState := UiState.Error(EmptyQueryMessage);
        return;
      }
      searchUiState := UiState.Loading;
      currentPage := 0;
      FetchBooks();
    }

    /** `loadNextPage`: one page further (in `Int` arithmetic), and that page is requested. */
    method LoadNextPage()
      modifies this`currentPage, this`requests, this`inFlight
      ensures currentPage == NextPage(old(currentPage))
      ensures old(currentPage) as int < IntMax ==> currentPage as int == old(currentPage) as int + 1
      ensures requests == old(requests) + [DataRepository.Call.SearchBooks(userInput, searchType, 10, StartIndex(currentPage))]
      ensures inFlight == old(inFlight) + 1
    {
      currentPage := NextPage(currentPage);
      FetchBooks();
    }

    /** A search returns: its items are appended to those already shown, if any. */
    method OnFetchSuccess(response: ApiResponse)
      requires inFlight > 0
      modifies this`searchUiState, this`inFlight
      ensures searchUiState == UiState.Success(Accumulate(old(searchUiState), response.items))
      ensures inFlight == old(inFlight) - 1
    {
      var currentItems := CurrentItems(searchUiState);
      searchUiState := UiState.Success(currentItems + response.items);
      inFlight := inFlight - 1;
    }

    /** A search throws: the error replaces whatever was shown. */
    method OnFetchFailure(e: Throwable)
      requires inFlight > 0
      modifies this`searchUiState, this`inFlight
      ensures searchUiState == UiState.Error(FetchFailureMessage(e))
      ensures inFlight == old(inFlight) - 1
    {
      searchUiState := UiState.Error(FetchFailureMessage(e));
      inFlight := inFlight - 1;
    }
  }

  /**
   * A failed next page throws away what was shown: after an error, the
   * results view is empty although earlier pages had been loaded.
   */
  method FailedPageDropsResults(first: seq<Item>, e: Throwable) returns (results: seq<Item>)
    ensures results == []
  {
    var vm := new SearchViewModel();
    vm.UpdateUserInput("dune");
    assert "dune"[0] == 'd';
    vm.SearchBooks();
    vm.OnFetchSuccess(ApiResponse("books#volumes", 0, first));
    vm.LoadNextPage();
    vm.OnFetchFailure(e);
    results := vm.SearchResults();
  }
}

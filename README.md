# Bookshelf app core in Dafny

A model of the core of the Bookshelf Android app, which searches Google Books and Open Library. The model has two parts.

- **Record normalisation.** These are pure functions:
  - the canonical book record `Item`/`VolumeInfo` and its placeholder defaults;
  - the Open Library data classes and `getDescription`;
  - cover-URL synthesis, with its size check;
  - the request defaults of both service interfaces;
  - the `"$searchType:$query"` composition and argument forwarding of both repositories;
  - the two mappers from Open Library records into `Item`.
- **View-model state machines.** These are classes whose methods update fields:
  - the live search (`viewModel/SearchViewModel.kt`): debounce, provider switch, search type, blank-input reset and result dispatch;
  - the detail screen (`viewModel/DetailViewModel.kt`): error classification and retry;
  - the two paginated search view models (`ui/screen/ViewModel.kt`, `ui/screen/searchScreen/SearchViewModel.kt`): blank-query rejection, page counter, offsets and accumulation of results.

Asynchrony is made explicit:
- The method that starts a coroutine or Rx subscription records the repository call in a `requests` log and counts it as outstanding.
- Each completion is an `On…` method. It can only be called while a call is outstanding. It runs the remainder of the source's block against the state as it is at that moment.
- The 300 ms debounce job is a `searchJobPending` flag. `FireDebounced` is the end of its delay.
- The repository and the services are inputs: their replies are arguments of the `On…` methods.

Kotlin `Int` is a 32-bit newtype with explicit wrap-around (`Kotlin.Wrap`). Wrap-around is used for the page counter and the offset. `isBlank` follows the JVM's `Char.isWhitespace`. `Int.toString` is paired with a parser. A `"${x}"` template over a null `String?` writes `null`.

Files:
- `wrappers.dfy`: `Option` and `Result`.
- `kotlin.dfy`: the runtime pieces above.
- `book.dfy`, `open_library.dfy`: the data classes.
- `api_service.dfy`: the service calls, their defaults and cover URLs.
- `repositories.dfy`: query composition and both repositories.
- `states.dfy`: UI states, `NetworkResult`, and the paging logic shared by the paginated view models.
- `live_search.dfy`, `detail.dfy`, `paged_view_models.dfy`: the view models.

Where the record definitions and the code that uses them disagree, the model follows the code:
- `VolumeInfo` in `model/Book.kt` has no `categories` or `language`, yet `DetailViewModel.kt:73-74` sets both. The model adds them as optional fields that default to `None`.
- `BookShelfViewModel` imports `data.Repository` but calls `getBookshelves`, which only `model.Repository` declares. The model logs its calls as `ModelRepository.Call`.
- The `viewModel` package expects its repository to return a `NetworkResult` (or an Rx `Single` of one), unlike both repository interfaces shown. That reply is an input of the model.

Behaviours that are **not** in the code, and so not in the model:
- ISBN classification.
- Stripping the `/authors/` prefix from author keys (the raw keys are kept).
- Merging the results of the two providers (one list is picked).
- A guard against late or out-of-order replies.
- An Open Library fallback search.

Several members show these consequences:
- `LateReplyAfterClear`, `ReplyFollowsCurrentSource` and `StaleNextPageAfterNewSearch` show what the missing guard against late replies allows.
- `TypeBranchUnreachable` shows that the `"Description type: …"` branch of `getDescription` can never be taken.

## Model

| member | source | states |
|---|---|---|
| Kotlin.IsBlankConcat | app/src/main/java/com/example/bookshelfapp/viewModel/SearchViewModel.kt:83 | `isBlank()`: a text is blank exactly when each of its parts is, so one visible character makes it non-blank |
| Kotlin.BlankExamples | app/src/main/java/com/example/bookshelfapp/viewModel/SearchViewModel.kt:64 | `isBlank()` holds for the empty text and for tabs, newlines, the non-breaking and ideographic spaces; not for a text with a letter |
| Kotlin.Wrap | app/src/main/java/com/example/bookshelfapp/ui/screen/ViewModel.kt:76-89 | 32-bit `Int` result: equal to the exact value when that is in range, and congruent to it modulo 2^32 always |
| Kotlin.IntToString | app/src/main/java/com/example/bookshelfapp/viewModel/SearchViewModel.kt:129 | `Int.toString()`: non-empty; a leading minus sign exactly for negatives; digits otherwise; no leading zero (0 is "0", and there is no "-0") |
| Kotlin.DigitsValueOfNatToString | app/src/main/java/com/example/bookshelfapp/viewModel/SearchViewModel.kt:129 | the decimal digits of a natural number read back to that number (by induction) |
| Kotlin.NatToStringOfDigitsValue | app/src/main/java/com/example/bookshelfapp/viewModel/SearchViewModel.kt:129 | digits without a leading zero are the decimal text of their own value (by induction) |
| Kotlin.ParseIntCanonical | app/src/main/java/com/example/bookshelfapp/viewModel/SearchViewModel.kt:129 | any text that parses to `n` is exactly the `Int.toString()` text of `n`, so zero-padded texts and "-0" are refused |
| Kotlin.ParseIntToString | app/src/main/java/com/example/bookshelfapp/viewModel/SearchViewModel.kt:129 | round trip: parsing the text of `Int.toString()` gives back the number |
| Kotlin.IntToStringInjective | app/src/main/java/com/example/bookshelfapp/viewModel/SearchViewModel.kt:129 | distinct numbers have distinct decimal texts |
| Kotlin.Interpolate | app/src/main/java/com/example/bookshelfapp/ui/screen/ViewModel.kt:93 | a string template over `String?` writes the value, or `null` when there is none |
| Book.DefaultVolumeInfo | app/src/main/java/com/example/bookshelfapp/model/Book.kt:19-25 | a `VolumeInfo` built without arguments has each placeholder: title, one-element author list, date, description, thumbnail `ImageLinks("Image not available")` |
| Book.DefaultsArePerField | app/src/main/java/com/example/bookshelfapp/model/Book.kt:19-25 | supplying some fields leaves every other field at its default; the default author list has exactly one entry |
| Book.TotalItemsIndependentOfItems | app/src/main/java/com/example/bookshelfapp/model/Book.kt:6-10 | some `ApiResponse` has a `totalItems` different from its number of `items`: nothing ties the two |
| OpenLibrary.BookOptionalFieldsDefaultToNull | app/src/main/java/com/example/bookshelfapp/model/OpenLibraryDataClass.kt:15-25 | a search document built from `key` and `title` has every other field null |
| OpenLibrary.WorkOptionalFieldsDefaultToNull | app/src/main/java/com/example/bookshelfapp/model/OpenLibraryDataClass.kt:35-52 | a work built from `key` and `title` has no description, authors, date, covers or subjects |
| OpenLibrary.GetDescription | app/src/main/java/com/example/bookshelfapp/model/OpenLibraryDataClass.kt:91-97 | the description's value whenever one is present; "No description available" when it is null |
| OpenLibrary.TypeBranchUnreachable | app/src/main/java/com/example/bookshelfapp/model/OpenLibraryDataClass.kt:54-57 | whenever `description?.value` is null, `description?.type` is null too, so the type branch is never taken |
| OpenLibrary.GetDescriptionIgnoresType | app/src/main/java/com/example/bookshelfapp/model/OpenLibraryDataClass.kt:91-96 | changing a description's type tag never changes the result |
| ApiService.GoogleSearchDefaults | app/src/main/java/com/example/bookshelfapp/network/ApiService.kt:14-19 | a Google search given only its query asks for 10 results from index 0, by relevance, all print types |
| ApiService.OpenLibrarySearchDefaults | app/src/main/java/com/example/bookshelfapp/network/ApiService.kt:54-58 | an Open Library search given only its query asks for page 1 with limit 10 and the fixed field list |
| ApiService.GetCoverUrl | app/src/main/java/com/example/bookshelfapp/network/ApiService.kt:77-82 | succeeds exactly for sizes S, M and L (default M); otherwise fails with "Invalid size parameter. Use S, M, or L"; a URL starts with the covers base and `/id/`; with `CoverUrlRoundTrip` and `ParsedCoverUrlShape`, the URL is exactly the base, `/id/`, the id in plain decimal, `-`, the size and `.jpg` |
| ApiService.CoverUrlRoundTrip | app/src/main/java/com/example/bookshelfapp/network/ApiService.kt:81 | round trip: the cover id and the size read back from the URL are the ones it was made from |
| ApiService.ParsedCoverUrlShape | app/src/main/java/com/example/bookshelfapp/network/ApiService.kt:81 | a text that reads back as (id, size) is exactly `"$COVERS_BASE_URL/id/$coverId-$size.jpg"`, with the id in plain decimal |
| ApiService.ParseCoverUrlInjective | app/src/main/java/com/example/bookshelfapp/network/ApiService.kt:81 | no two texts read back as the same (id, size) |
| ApiService.CoverUrlInjective | app/src/main/java/com/example/bookshelfapp/network/ApiService.kt:81 | distinct (id, size) pairs give distinct URLs |
| ApiService.PlaceholderIsNotCoverUrl | app/src/main/java/com/example/bookshelfapp/viewModel/SearchViewModel.kt:132-134 | the "Image not available" placeholder does not read as a cover URL |
| QueryString.ComposeQuery | app/src/main/java/com/example/bookshelfapp/data/Repository.kt:16 | the query is the search type, one colon, then the query text, each in its position |
| QueryString.IndexOfColon | app/src/main/java/com/example/bookshelfapp/data/Repository.kt:16 | the position of the first colon (none before it), or no colon at all |
| QueryString.SplitComposeQuery | app/src/main/java/com/example/bookshelfapp/data/Repository.kt:16 | round trip: for a colon-free search type, splitting at the first colon gives back type and query, even when the query has colons |
| QueryString.ComposeQueryInjective | app/src/main/java/com/example/bookshelfapp/model/Repository.kt:18 | over colon-free types, distinct (type, query) pairs send distinct queries |
| QueryString.ColonInTypeCollides | app/src/main/java/com/example/bookshelfapp/model/Repository.kt:18 | with a colon in the type, two distinct pairs send the same query |
| DataRepository.Forward | app/src/main/java/com/example/bookshelfapp/data/Repository.kt:12-20 | search sends the composed query with `maxResults` and `startIndex` unchanged and the service's other defaults; details forwards the volume id unchanged |
| DataRepository.ForwardInjective | app/src/main/java/com/example/bookshelfapp/data/Repository.kt:12-20 | over colon-free types, the service call determines the repository call |
| ModelRepository.Forward | app/src/main/java/com/example/bookshelfapp/model/Repository.kt:14-34 | each of the six calls goes to the service call of the same name, with its arguments unchanged and in order; search composes the query |
| ModelRepository.ForwardInjective | app/src/main/java/com/example/bookshelfapp/model/Repository.kt:14-34 | over colon-free types, the service call determines the repository call: no call is sent as another, no arguments trade places |
| Paging.StartIndex | app/src/main/java/com/example/bookshelfapp/ui/screen/ViewModel.kt:88 | `currentPage * 10` in `Int` arithmetic: exact for pages 0 to 214748364, congruent modulo 2^32 always |
| Paging.NextPage | app/src/main/java/com/example/bookshelfapp/ui/screen/ViewModel.kt:77 | `currentPage++`: one more, except that `Int.MAX_VALUE` wraps to `Int.MIN_VALUE` |
| Paging.NextWindow | app/src/main/java/com/example/bookshelfapp/ui/screen/ViewModel.kt:76-89 | consecutive pages ask for consecutive windows: the offset grows by exactly 10 |
| Paging.CurrentItems | app/src/main/java/com/example/bookshelfapp/ui/screen/ViewModel.kt:90 | the items of a `Success` state; empty for `Loading` and `Error` |
| Paging.Accumulate | app/src/main/java/com/example/bookshelfapp/ui/screen/ViewModel.kt:90-91 | after a `Success`, the old items are a prefix and the fetched items the suffix; otherwise the fetched items alone |
| Paging.AfterSuccessesAppends | app/src/main/java/com/example/bookshelfapp/ui/screen/ViewModel.kt:90-91 | after any number of successful fetches, the list is the items shown before followed by every page in completion order |
| Paging.FetchFailureMessage | app/src/main/java/com/example/bookshelfapp/ui/screen/ViewModel.kt:92-97 | the message prefix is "Network Error: ", "HTTP error: " or "Unexpected error: " exactly for IO, HTTP and other exceptions; the exception's text (or code and status) follows |
| LiveSearch.CoverThumbnail | app/src/main/java/com/example/bookshelfapp/viewModel/SearchViewModel.kt:131-135 | a cover id gives its medium-size cover URL, always valid; no id gives "Image not available" |
| LiveSearch.PublishedYear | app/src/main/java/com/example/bookshelfapp/viewModel/SearchViewModel.kt:129-130 | a year gives a text that parses back to it, and by `ParseIntCanonical` that text is exactly the year's `Int.toString()`; no year gives "Publication date not available", which parses as nothing |
| LiveSearch.MapDoc | app/src/main/java/com/example/bookshelfapp/viewModel/SearchViewModel.kt:123-137 | id and title carried over; authors or the fallback when null; the year's decimal text or "Publication date not available"; the medium cover URL or "Image not available"; the record's description placeholder; no categories or language |
| LiveSearch.MapToGoogleBooksFormat | app/src/main/java/com/example/bookshelfapp/viewModel/SearchViewModel.kt:122-139 | one record per document, same length and order |
| LiveSearch.MapDocRecoversCoverAndYear | app/src/main/java/com/example/bookshelfapp/viewModel/SearchViewModel.kt:129-135 | the cover id reads back from the thumbnail and the year from the date; a missing one reads back as nothing |
| LiveSearch.MapDocAuthorsFallbackOnlyOnNull | app/src/main/java/com/example/bookshelfapp/viewModel/SearchViewModel.kt:128 | an empty author list stays empty; only a null list falls back |
| LiveSearch.SearchViewModel.constructor | app/src/main/java/com/example/bookshelfapp/viewModel/SearchViewModel.kt:29-43 | empty input, `Success([])`, type "title", Google Books selected, nothing pending or outstanding |
| LiveSearch.SearchViewModel.SearchBooks | app/src/main/java/com/example/bookshelfapp/viewModel/SearchViewModel.kt:82-96 | blank input: `Success([])` and no call; otherwise `Loading`, page 0, one call for 10 results from offset 0 |
| LiveSearch.SearchViewModel.ToggleApiSource | app/src/main/java/com/example/bookshelfapp/viewModel/SearchViewModel.kt:46-51 | negates the provider switch; searches again (state `Loading`) if and only if the input is non-blank, else leaves the state alone |
| LiveSearch.SearchViewModel.UpdateSearchType | app/src/main/java/com/example/bookshelfapp/viewModel/SearchViewModel.kt:53-58 | stores the type; searches again with it only if the input is non-blank |
| LiveSearch.SearchViewModel.UpdateUserInput | app/src/main/java/com/example/bookshelfapp/viewModel/SearchViewModel.kt:60-73 | blank input: empty input, `Success([])`, page 0, nothing pending; other input: stored, and exactly one search pending; no call yet |
| LiveSearch.SearchViewModel.ClearUserInput | app/src/main/java/com/example/bookshelfapp/viewModel/SearchViewModel.kt:75-80 | empty input, `Success([])`, page 0, nothing pending |
| LiveSearch.SearchViewModel.FireDebounced | app/src/main/java/com/example/bookshelfapp/viewModel/SearchViewModel.kt:69-72 | the end of the delay runs the search: nothing pending, `Loading`, one call |
| LiveSearch.SearchViewModel.OnSearchResult | app/src/main/java/com/example/bookshelfapp/viewModel/SearchViewModel.kt:98-113 | success shows the Google list or the mapped Open Library list, by the switch as it is now; an error shows its message or "Unknown error occurred" |
| LiveSearch.SearchViewModel.OnSearchFailure | app/src/main/java/com/example/bookshelfapp/viewModel/SearchViewModel.kt:114-118 | an error callback shows the message or "Unknown error occurred" |
| LiveSearch.KeystrokesThenQuietPeriod | app/src/main/java/com/example/bookshelfapp/viewModel/SearchViewModel.kt:60-73 | three edits then one quiet period make exactly one call, for the last text |
| LiveSearch.LateReplyAfterClear | app/src/main/java/com/example/bookshelfapp/viewModel/SearchViewModel.kt:75-106 | a reply arriving after the input was cleared still replaces the empty result |
| LiveSearch.ReplyFollowsCurrentSource | app/src/main/java/com/example/bookshelfapp/viewModel/SearchViewModel.kt:98-106 | a reply is dispatched by the switch at arrival, not by the one at the time of the call |
| Detail.ErrorMessage | app/src/main/java/com/example/bookshelfapp/viewModel/DetailViewModel.kt:43-47 | IO: "Network Error: Please check your connection"; HTTP: "Server Error: " followed by a code that reads back, which by `ParseIntCanonical` is exactly the code's `Int.toString()`; other: the message or "An unexpected error occurred" |
| Detail.OtherFailureCanMimicNetworkFailure | app/src/main/java/com/example/bookshelfapp/viewModel/DetailViewModel.kt:43-47 | a non-IO exception whose message is the network text shows the same message as an IO failure |
| Detail.AuthorKeys | app/src/main/java/com/example/bookshelfapp/viewModel/DetailViewModel.kt:65 | the raw author keys, in order, one per author |
| Detail.FirstCoverThumbnail | app/src/main/java/com/example/bookshelfapp/viewModel/DetailViewModel.kt:69-71 | the first cover's medium-size URL, which never fails; "Image not available" when covers are null or empty |
| Detail.MapOpenLibraryToGoogleFormat | app/src/main/java/com/example/bookshelfapp/viewModel/DetailViewModel.kt:60-77 | key and title carried over; raw author keys, or the fallback only when null; date or its default; `getDescription`; the first cover's URL or "Image not available"; subjects as categories; no language |
| Detail.WorkThumbnailIsFirstCover | app/src/main/java/com/example/bookshelfapp/viewModel/DetailViewModel.kt:68-72 | the thumbnail reads back as the first cover at size M; null or empty covers give "Image not available", which reads back as nothing |
| Detail.WorkPlaceholdersDifferFromRecord | app/src/main/java/com/example/bookshelfapp/viewModel/DetailViewModel.kt:65-67 | a missing description gets a different text from the record's own default; an empty author list stays empty |
| Detail.DetailViewModel.constructor | app/src/main/java/com/example/bookshelfapp/viewModel/DetailViewModel.kt:24-35 | construction starts one fetch for the volume and shows `Loading` |
| Detail.DetailViewModel.GetBookDetails | app/src/main/java/com/example/bookshelfapp/viewModel/DetailViewModel.kt:33-38 | `Loading`, and one more call for this view model's volume |
| Detail.DetailViewModel.Retry | app/src/main/java/com/example/bookshelfapp/viewModel/DetailViewModel.kt:84-86 | the same fetch for the same volume, through `Loading` again |
| Detail.DetailViewModel.OnResult | app/src/main/java/com/example/bookshelfapp/viewModel/DetailViewModel.kt:38-50 | success shows the record unchanged, an error its classified message; never `Loading` afterwards |
| Detail.DetailViewModel.OnException | app/src/main/java/com/example/bookshelfapp/viewModel/DetailViewModel.kt:51-55 | a thrown exception shows its message or "An unexpected error occurred" |
| Detail.RetryAfterFailure | app/src/main/java/com/example/bookshelfapp/viewModel/DetailViewModel.kt:84-86 | after a failure, a retry asks for the same volume and its reply replaces the error |
| BookShelf.DetailsFailureMessage | app/src/main/java/com/example/bookshelfapp/ui/screen/ViewModel.kt:111-116 | as a failed search, except that IO failures are lower-case "Network error: " followed by the exception's text, and so differ from the search message |
| BookShelf.BookshelvesFailureMessage | app/src/main/java/com/example/bookshelfapp/ui/screen/ViewModel.kt:127-128 | "Error fetching bookshelves: " followed by the exception's text |
| BookShelf.BookShelfViewModel.constructor | app/src/main/java/com/example/bookshelfapp/ui/screen/ViewModel.kt:43-56 | empty input, all three states `Loading`, type "intitle", page 0 |
| BookShelf.BookShelfViewModel.UpdateUserInput | app/src/main/java/com/example/bookshelfapp/ui/screen/ViewModel.kt:58-60 | stores the input and changes nothing else |
| BookShelf.BookShelfViewModel.ClearUserInput | app/src/main/java/com/example/bookshelfapp/ui/screen/ViewModel.kt:62-64 | empties the input and changes nothing else |
| BookShelf.BookShelfViewModel.FetchBooks | app/src/main/java/com/example/bookshelfapp/ui/screen/ViewModel.kt:81-89 | one call for the current input and type, 10 results from the current page's offset |
| BookShelf.BookShelfViewModel.SearchBooks | app/src/main/java/com/example/bookshelfapp/ui/screen/ViewModel.kt:66-74 | blank input: `Error("Search query cannot be empty")` and no call; otherwise `Loading`, page 0, one call from offset 0 |
| BookShelf.BookShelfViewModel.LoadNextPage | app/src/main/java/com/example/bookshelfapp/ui/screen/ViewModel.kt:76-79 | the page goes up by exactly one (below `Int.MAX_VALUE`) and that page is requested; the shown list stays |
| BookShelf.BookShelfViewModel.OnFetchSuccess | app/src/main/java/com/example/bookshelfapp/ui/screen/ViewModel.kt:90-91 | the fetched items are appended to those of a `Success` state, or shown alone otherwise |
| BookShelf.BookShelfViewModel.OnFetchFailure | app/src/main/java/com/example/bookshelfapp/ui/screen/ViewModel.kt:92-98 | the failure message by exception class replaces the list |
| BookShelf.BookShelfViewModel.GetBookDetails | app/src/main/java/com/example/bookshelfapp/ui/screen/ViewModel.kt:105-109 | `Loading`, then one call for the volume |
| BookShelf.BookShelfViewModel.OnBookDetailsSuccess | app/src/main/java/com/example/bookshelfapp/ui/screen/ViewModel.kt:110 | shows the record as returned |
| BookShelf.BookShelfViewModel.OnBookDetailsFailure | app/src/main/java/com/example/bookshelfapp/ui/screen/ViewModel.kt:111-117 | shows the detail failure message |
| BookShelf.BookShelfViewModel.GetBookshelves | app/src/main/java/com/example/bookshelfapp/ui/screen/ViewModel.kt:121-125 | `Loading`, then one call for the user's shelves |
| BookShelf.BookShelfViewModel.OnBookshelvesSuccess | app/src/main/java/com/example/bookshelfapp/ui/screen/ViewModel.kt:126 | shows the reply's shelves |
| BookShelf.BookShelfViewModel.OnBookshelvesFailure | app/src/main/java/com/example/bookshelfapp/ui/screen/ViewModel.kt:127-129 | any exception shows the bookshelves failure message |
| BookShelf.TwoPages | app/src/main/java/com/example/bookshelfapp/ui/screen/ViewModel.kt:66-91 | a search then the next page ask for offsets 0 and 10, and show the first page followed by the second |
| BookShelf.StaleNextPageAfterNewSearch | app/src/main/java/com/example/bookshelfapp/ui/screen/ViewModel.kt:66-91 | a reply still outstanding from the previous query is shown alone after a new search clears to `Loading` |
| PagedSearch.SearchViewModel.constructor | app/src/main/java/com/example/bookshelfapp/ui/screen/searchScreen/SearchViewModel.kt:29-42 | empty input, `Loading`, type "intitle", page 0 |
| PagedSearch.SearchViewModel.SearchResults | app/src/main/java/com/example/bookshelfapp/ui/screen/searchScreen/SearchViewModel.kt:37-38 | the items of a `Success` state; empty for `Loading` and `Error` |
| PagedSearch.SearchViewModel.SetSearchType | app/src/main/java/com/example/bookshelfapp/ui/screen/searchScreen/SearchViewModel.kt:35 | the public setter stores the type |
| PagedSearch.SearchViewModel.UpdateUserInput | app/src/main/java/com/example/bookshelfapp/ui/screen/searchScreen/SearchViewModel.kt:44-46 | stores the input and changes nothing else |
| PagedSearch.SearchViewModel.ClearUserInput | app/src/main/java/com/example/bookshelfapp/ui/screen/searchScreen/SearchViewModel.kt:48-50 | empties the input and changes nothing else |
| PagedSearch.SearchViewModel.FetchBooks | app/src/main/java/com/example/bookshelfapp/ui/screen/searchScreen/SearchViewModel.kt:67-75 | one call for the current input and type, 10 results from the current page's offset |
| PagedSearch.SearchViewModel.SearchBooks | app/src/main/java/com/example/bookshelfapp/ui/screen/searchScreen/SearchViewModel.kt:52-60 | blank input: `Error("Search query cannot be empty")` and no call; otherwise `Loading`, page 0, one call from offset 0 |
| PagedSearch.SearchViewModel.LoadNextPage | app/src/main/java/com/example/bookshelfapp/ui/screen/searchScreen/SearchViewModel.kt:62-65 | the page goes up by exactly one (below `Int.MAX_VALUE`) and that page is requested |
| PagedSearch.SearchViewModel.OnFetchSuccess | app/src/main/java/com/example/bookshelfapp/ui/screen/searchScreen/SearchViewModel.kt:76-77 | the fetched items are appended to those of a `Success` state, or shown alone otherwise |
| PagedSearch.SearchViewModel.OnFetchFailure | app/src/main/java/com/example/bookshelfapp/ui/screen/searchScreen/SearchViewModel.kt:78-84 | the failure message by exception class replaces the list |
| PagedSearch.FailedPageDropsResults | app/src/main/java/com/example/bookshelfapp/ui/screen/searchScreen/SearchViewModel.kt:76-84 | a failed next page empties the results view although earlier pages were loaded |

## Left out

- Compose UI, navigation and theming are not part of this model; they render state and hold no logic beyond it. This includes the thumbnail rewrite `replace("http", "https")` in the screens.
- HTTP transport, Retrofit, OkHttp and dependency injection are not part of this model: `ApiServiceFactory`, `AppContainer`, `AppModule`, `AppViewModelProvider`, the application class. The DI files also do not match the constructors, e.g. three arguments are passed to `DetailViewModel`.
- The services and repositories are not executed. A call is a value in a log; its reply or exception is an argument of the matching `On…` method.
- Concurrency and timing are left out: `viewModelScope`, `delay(300)`, `Schedulers.io()`, `CompositeDisposable` and `onCleared`. The debounce is a pending flag plus `FireDebounced`. Completions may be called in any order while a call is outstanding. Disposal on `onCleared` is not modelled.
- The arguments of a `fetchBooks` call are taken when the coroutine starts, on the assumption that it runs to its first suspension at once.
- Types the core uses but that are not shown are opaque or minimal:
  - `NetworkResult` is a success value or an exception.
  - The live search's reply is a pair of a Google list and an Open Library list.
  - `BookshelfResponse.Bookshelf` is an abstract type.
  - `network.ApiService` is represented by the Google Books service calls. Its search defaults, `orderBy = "relevance"` and `printType = "all"`, are assumed to be those of `GoogleBooksApiService.searchBooks`; this is what `DataRepository.Forward` and `ModelRepository.Forward` state for them.
- Exceptions are reduced to their class (IO, HTTP with code and status message, or other) and an optional message. A `CancellationException` falls in "other", as the source's catch-all clauses catch it.
- `OpenLibraryResponse`, `Availability`, `Excerpt` and `Link` are data only; no operation of the core reads them.

## Behaviour worth knowing

- The search-type value reaches the service as `type:query`. It can be read back only for colon-free types (`ColonInTypeCollides`). The types offered by the screens are all colon-free.
- `loadNextPage` is not guarded. Past `Int.MAX_VALUE` the page wraps to a negative number. The offset wraps modulo 2^32. It first turns negative at page 214748365.

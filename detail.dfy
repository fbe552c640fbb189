/**
 * The detail screen of the `viewModel` package: one volume fetched on
 * construction and on every retry, the classification of its failures,
 * and the mapping of an Open Library work into the canonical record.
 *
 * A fetch is recorded in `requests` and counted in `inFlight` until its
 * outcome arrives: `OnResult` for the repository's `NetworkResult`,
 * `OnException` for an exception thrown out of the call.
 */
module Detail {
  import opened Wrappers
  import opened Kotlin
  import opened Book
  import opened OpenLibrary
  import opened States
  import opened Network
  import ApiService
  import ModelRepository

  const NetworkErrorMessage := "Network Error: Please check your connection"
  const ServerErrorPrefix := "Server Error: "
  const UnexpectedErrorMessage := "An unexpected error occurred"

  /**
   * The message for a `NetworkResult.Error`: a fixed text for a network
   * failure, the status code (readable back) for an HTTP failure, and the
   * exception's own message, or a fixed text, for anything else.
   */
  function ErrorMessage(e: Throwable): (m: string)
    ensures e.kind.IOException? ==> m == "Network Error: Please check your connection"
    ensures e.kind.HttpException? ==>
      StartsWith(m, ServerErrorPrefix) && ParseInt(m[|ServerErrorPrefix|..]) == Some(e.kind.code as int)
    ensures e.kind.OtherException? && e.message.Some? ==> m == e.message.value
    ensures e.kind.OtherException? && e.message.None? ==> m == "An unexpected error occurred"
  {
    match e.kind
    case IOException => NetworkErrorMessage
    case HttpException(code, _) =>
      var m := ServerErrorPrefix + IntToString(code as int);
      StartsWithConcat(ServerErrorPrefix, IntToString(code as int));
      assert m[|ServerErrorPrefix|..] == IntToString(code as int);
      ParseIntToString(code as int);
      m
    case OtherException => e.message.GetOr(UnexpectedErrorMessage)
  }

  /**
   * Only network and HTTP failures are told apart reliably: an exception of
   * any other class whose message happens to be the network text shows the
   * same message as a network failure.
   */
  lemma OtherFailureCanMimicNetworkFailure()
    ensures ErrorMessage(Throwable(OtherException, Some(NetworkErrorMessage)))
         == ErrorMessage(Throwable(IOException, None))
  {
  }

  // ---------------------------------------------------------------------
  // mapOpenLibraryToGoogleFormat
  // ---------------------------------------------------------------------

  /** The raw keys of the work's author references, in order. */
  function AuthorKeys(authors: seq<Author>): (keys: seq<string>)
    ensures |keys| == |authors|
    ensures forall i :: 0 <= i < |authors| ==> keys[i] == authors[i].author.key
  {
    if authors == [] then [] else [authors[0].author.key] + AuthorKeys(authors[1..])
  }

  /** `covers?.firstOrNull()?.let { getCoverUrl(it) } ?: "Image not available"`. */
  function FirstCoverThumbnail(covers: Option<seq<Int32>>): (t: string)
    ensures covers.Some? && |covers.value| > 0 ==>
      ApiService.GetCoverUrl(covers.value[0]).Success? && t == ApiService.GetCoverUrl(covers.value[0], "M").value
    ensures !(covers.Some? && |covers.value| > 0) ==> t == "Image not available"
  {
    if covers.Some? && |covers.value| > 0 then ApiService.GetCoverUrl(covers.value[0]).value
    else ImageNotAvailable
  }

  /**
   * `mapOpenLibraryToGoogleFormat`: key, title and publication date as
   * they are; authors as their raw keys (a missing list, and only a
   * missing one, falls back); `getDescription`; subjects as categories;
   * no language.
   */
  function MapOpenLibraryToGoogleFormat(work: OpenLibraryWork): (item: Item)
    ensures item.id == work.key && item.volumeInfo.title == work.title
    ensures work.authors.Some? ==>
      && |item.volumeInfo.authors| == |work.authors.value|
      && forall i :: 0 <= i < |work.authors.value| ==> item.volumeInfo.authors[i] == work.authors.value[i].author.key
    ensures work.authors.None? ==> item.volumeInfo.authors == ["Author not available"]
    ensures work.firstPublishDate.Some? ==> item.volumeInfo.publishedDate == work.firstPublishDate.value
    ensures work.firstPublishDate.None? ==> item.volumeInfo.publishedDate == "Publication date not available"
    ensures work.description.Some? ==> item.volumeInfo.description == work.description.value.value
    ensures work.description.None? ==> item.volumeInfo.description == "No description available"
    ensures work.covers.Some? && |work.covers.value| > 0 ==>
      item.volumeInfo.imageLinks.thumbnail == ApiService.GetCoverUrl(work.covers.value[0], "M").value
    ensures !(work.covers.Some? && |work.covers.value| > 0) ==> item.volumeInfo.imageLinks.thumbnail == "Image not available"
    ensures item.volumeInfo.categories == work.subjects && item.volumeInfo.language.None?
  {
    Item(
      id := work.key,
      volumeInfo := VolumeInfo(
        title := work.title,
        authors := if work.authors.Some? then AuthorKeys(work.authors.value) else [AuthorNotAvailable],
        publishedDate := work.firstPublishDate.GetOr(PublicationDateNotAvailable),
        description := GetDescription(work),
        imageLinks := ImageLinks(thumbnail := FirstCoverThumbnail(work.covers)),
        categories := work.subjects,
        language := None))
  }

  /**
   * The thumbnail is the first cover at medium size, and the cover id and
   * size read back from it; with no cover it is the placeholder, which
   * reads back as nothing.
   */
  lemma WorkThumbnailIsFirstCover(work: OpenLibraryWork)
    ensures var t := MapOpenLibraryToGoogleFormat(work).volumeInfo.imageLinks.thumbnail;
      ApiService.ParseCoverUrl(t)
      == (if work.covers.Some? && |work.covers.value| > 0 then Some((work.covers.value[0] as int, "M")) else None)
    ensures !(work.covers.Some? && |work.covers.value| > 0) ==>
      MapOpenLibraryToGoogleFormat(work).volumeInfo.imageLinks.thumbnail == ImageNotAvailable
  {
    if work.covers.Some? && |work.covers.value| > 0 {
      ApiService.CoverUrlRoundTrip(work.covers.value[0], "M");
    } else {
      ApiService.PlaceholderIsNotCoverUrl();
    }
  }

  /**
   * A work without a description gets `getDescription`'s text, not the
   * record's own placeholder, and an empty author list stays empty.
   */
  lemma WorkPlaceholdersDifferFromRecord(key: string, title: string)
    ensures MapOpenLibraryToGoogleFormat(OpenLibraryWork(key, title)).volumeInfo.description
         != VolumeInfo().description
    ensures MapOpenLibraryToGoogleFormat(OpenLibraryWork(key, title, authors := Some([]))).volumeInfo.authors == []
  {
    assert NoDescriptionAvailable[0] != DescriptionNotAvailable[0];
  }

  // ---------------------------------------------------------------------
  // DetailViewModel
  // ---------------------------------------------------------------------

  class DetailViewModel {
    const volumeId: string
    var uiState: UiState<Item>
    /** The calls made on the repository so far, oldest first. */
    var requests: seq<ModelRepository.Call>
    /** Fetches whose outcome has not arrived yet. */
    var inFlight: nat

    /**
     * Every call asks for this view model's volume, and the screen shows
     * `Loading` only while a fetch is outstanding.
     */
    ghost predicate Valid()
      reads this
    {
      && (forall i :: 0 <= i < |requests| ==> requests[i] == ModelRepository.Call.GetBookDetails(volumeId))
      && (uiState.Loading? ==> inFlight > 0)
    }

    /** Construction starts the first fetch: `Loading` until it completes. */
    constructor(volumeId: string)
      ensures Valid()
      ensures this.volumeId == volumeId
      ensures uiState == UiState.Loading
      ensures requests == [ModelRepository.Call.GetBookDetails(volumeId)] && inFlight == 1
    {
      // The field starts as `Loading`; `init` then runs `getBookDetails`,
      // which sets `Loading` again and makes the first call.
      this.volumeId := volumeId;
      uiState := UiState.Loading;
      requests := [ModelRepository.Call.GetBookDetails(volumeId)];
      inFlight := 1;
    }

    /** `getBookDetails`: show `Loading` and ask the repository for the volume. */
    method GetBookDetails()
      requires Valid()
      modifies this`uiState, this`requests, this`inFlight
      ensures Valid()
      ensures uiState == UiState.Loading
      ensures requests == old(requests) + [ModelRepository.Call.GetBookDetails(volumeId)]
      ensures inFlight == old(inFlight) + 1
    {
      uiState := UiState.Loading;
      requests := requests + [ModelRepository.Call.GetBookDetails(volumeId)];
      inFlight := inFlight + 1;
    }

    /** `retry`: the same fetch for the same volume, through `Loading` again. */
    method Retry()
      requires Valid()
      modifies this`uiState, this`requests, this`inFlight
      ensures Valid()
      ensures uiState == UiState.Loading
      ensures requests == old(requests) + [ModelRepository.Call.GetBookDetails(volumeId)]
      ensures inFlight == old(inFlight) + 1
    {
      GetBookDetails();
    }

    /** The repository answers: the record as it is, or a classified error. Never `Loading` after. */
    method OnResult(result: NetworkResult<Item>)
      requires Valid() && inFlight > 0
      modifies this`uiState, this`inFlight
      ensures Valid() && inFlight == old(inFlight) - 1
      ensures result.Success? ==> uiState == UiState.Success(result.data)
      ensures result.Error? ==> uiState == UiState.Error(ErrorMessage(result.exception))
      ensures !uiState.Loading?
    {
      inFlight := inFlight - 1;
      match result
      case Success(data) =>
        uiState := UiState.Success(data);
      case Error(exception) =>
        uiState := UiState.Error(ErrorMessage(exception));
    }

    /** The call throws: its message, whatever its class, or a fixed text. Never `Loading` after. */
    method OnException(e: Throwable)
      requires Valid() && inFlight > 0
      modifies this`uiState, this`inFlight
      ensures Valid() && inFlight == old(inFlight) - 1
      ensures uiState == UiState.Error(e.message.GetOr(UnexpectedErrorMessage))
    {
      inFlight := inFlight - 1;
      uiState := UiState.Error(e.message.GetOr(UnexpectedErrorMessage));
    }
  }

  /**
   * A failed fetch followed by a retry: the retry asks for the same
   * volume again and its reply replaces the error.
   */
  method RetryAfterFailure(volumeId: string, item: Item) returns (calls: seq<ModelRepository.Call>, shown: UiState<Item>)
    ensures calls == [ModelRepository.Call.GetBookDetails(volumeId), ModelRepository.Call.GetBookDetails(volumeId)]
    ensures shown == UiState.Success(item)
  {
    var vm := new DetailViewModel(volumeId);
    vm.OnResult(NetworkResult.Error(Throwable(IOException, None)));
    assert vm.uiState == UiState.Error(NetworkErrorMessage);
    vm.Retry();
    vm.OnResult(NetworkResult.Success(item));
    calls, shown := vm.requests, vm.uiState;
  }
}

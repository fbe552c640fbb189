/**
 * The sealed UI-state interfaces of the view models. `SearchUiState`,
 * `BookShelfUiState`, `BookshelvesUiState`, `DetailUiState` and
 * `BookDetailsState` all have the same three cases and differ only in
 * what a success carries, so one generic type stands for all of them.
 */
module States {
  datatype UiState<+T> = Success(value: T) | Loading | Error(message: string)
}

/**
 * `NetworkResult`, the reply type of the repository the `viewModel`
 * package calls: a value, or the exception the call failed with.
 */
module Network {
  import opened Kotlin

  datatype NetworkResult<+T> = Success(data: T) | Error(exception: Throwable)
}

/**
 * What the two paginated view models (`BookShelfViewModel` and the
 * search screen's `SearchViewModel`) share, statement for statement:
 * the page arithmetic, the accumulation of results and the messages for
 * failed fetches.
 */
module Paging {
  import opened Wrappers
  import opened Kotlin
  import opened Book
  import opened States

  const ItemsPerPage: Int32 := 10
  const DefaultSearchType := "intitle"
  const EmptyQueryMessage := "Search query cannot be empty"
  const NetworkErrorPrefix := "Network Error: "
  const HttpErrorPrefix := "HTTP error: "
  const UnexpectedErrorPrefix := "Unexpected error: "

  /** `currentPage * itemsPerPage` in `Int` arithmetic. */
  function StartIndex(page: Int32): (r: Int32)
    ensures 0 <= page as int <= 214748364 ==> r as int == page as int * 10
    ensures (r as int - page as int * 10) % 0x1_0000_0000 == 0
  {
    Wrap(page as int * ItemsPerPage as int)
  }

  /** `currentPage++` in `Int` arithmetic. */
  function NextPage(page: Int32): (r: Int32)
    ensures page as int < IntMax ==> r as int == page as int + 1
    ensures page as int == IntMax ==> r as int == IntMin
  {
    Wrap(page as int + 1)
  }

  /** Consecutive pages ask for consecutive windows of ten results. */
  lemma NextWindow(page: Int32)
    requires 0 <= page as int < 214748364
    ensures StartIndex(NextPage(page)) as int == StartIndex(page) as int + ItemsPerPage as int
  {
  }

  /** `(state as? Success)?.items ?: emptyList()`. */
  function CurrentItems(s: UiState<seq<Item>>): (r: seq<Item>)
    ensures s.Success? ==> r == s.value
    ensures !s.Success? ==> r == []
  {
    if s.Success? then s.value else []
  }

  /**
   * The list a successful fetch publishes: the items of the current
   * `Success` state followed by the fetched ones, or the fetched ones
   * alone when the state is `Loading` or `Error`.
   */
  function Accumulate(s: UiState<seq<Item>>, fetched: seq<Item>): (r: seq<Item>)
    ensures s.Success? ==> |r| == |s.value| + |fetched| && r[..|s.value|] == s.value && r[|s.value|..] == fetched
    ensures !s.Success? ==> r == fetched
  {
    CurrentItems(s) + fetched
  }

  /** The concatenation of a sequence of pages. */
  function Concat(pages: seq<seq<Item>>): seq<Item> {
    if pages == [] then [] else pages[0] + Concat(pages[1..])
  }

  /** The state after successful fetches complete with these pages, in this order. */
  function AfterSuccesses(s: UiState<seq<Item>>, pages: seq<seq<Item>>): UiState<seq<Item>>
    decreases |pages|
  {
    if pages == [] then s else AfterSuccesses(UiState.Success(Accumulate(s, pages[0])), pages[1..])
  }

  /**
   * However many fetches succeed, the published list is what was shown
   * before followed by every page in completion order: earlier results are
   * never dropped or reordered.
   */
  lemma {:induction false} AfterSuccessesAppends(s: UiState<seq<Item>>, pages: seq<seq<Item>>)
    requires pages != []
    ensures AfterSuccesses(s, pages) == UiState.Success(CurrentItems(s) + Concat(pages))
    decreases |pages|
  {
    var rest := pages[1..];
    if rest == [] {
      var next := UiState.Success(Accumulate(s, pages[0]));
      assert AfterSuccesses(next, rest) == next;
      assert Concat(pages) == pages[0] + Concat(rest) == pages[0];
    } else {
      AfterSuccessesAppends(UiState.Success(Accumulate(s, pages[0])), rest);
      assert CurrentItems(s) + pages[0] + Concat(rest) == CurrentItems(s) + (pages[0] + Concat(rest));
    }
  }

  /**
   * The message of a failed fetch, by exception class. The class can be
   * read back from the message prefix, and the exception's text follows it.
   */
  function FetchFailureMessage(e: Throwable): (m: string)
    ensures e.kind.IOException? <==> StartsWith(m, NetworkErrorPrefix)
    ensures e.kind.HttpException? <==> StartsWith(m, HttpErrorPrefix)
    ensures e.kind.OtherException? <==> StartsWith(m, UnexpectedErrorPrefix)
    ensures e.kind.IOException? ==> m[|NetworkErrorPrefix|..] == Interpolate(e.message)
    ensures e.kind.OtherException? ==> m[|UnexpectedErrorPrefix|..] == Interpolate(e.message)
    ensures e.kind.HttpException? ==>
      m[|HttpErrorPrefix|..] == IntToString(e.kind.code as int) + " " + e.kind.statusMessage
  {
    var m := match e.kind
      case IOException => NetworkErrorPrefix + Interpolate(e.message)
      case HttpException(code, status) => HttpErrorPrefix + (IntToString(code as int) + " " + status)
      case OtherException => UnexpectedErrorPrefix + Interpolate(e.message);
    assert m[0] == (match e.kind case IOException => 'N' case HttpException(_, _) => 'H' case OtherException => 'U');
    m
  }
}

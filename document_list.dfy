/**
 * The document list: pagination arithmetic, the fetch and delete state
 * transitions, and which panel is on screen.
 */
module DocumentList {
  import opened Wrappers
  import opened ApiClient
  import opened I18n

  const PageSize := 12
  const LoadFailedMessage := "Failed to load documents"
  const DeleteFailedMessage := "Failed to delete document"
  const ServiceUnavailableKey := "documents.error.serviceUnavailable"

  /** `Math.ceil(total / 12)`. */
  function TotalPages(total: int): (pages: int)
    ensures PageSize * (pages - 1) < total <= PageSize * pages
  {
    -((-total) / PageSize)
  }

  lemma TotalPagesExamples()
    ensures TotalPages(0) == 0 && TotalPages(1) == 1 && TotalPages(12) == 1 && TotalPages(13) == 2
  {
  }

  /** The previous-page updater `Math.max(1, p - 1)`. */
  function PrevPage(page: int): (p: int)
    ensures p >= 1
    ensures page > 1 ==> p == page - 1
    ensures page <= 1 ==> p == 1
  {
    if page - 1 > 1 then page - 1 else 1
  }

  /** The next-page updater `Math.min(totalPages, p + 1)`. */
  function NextPage(page: int, totalPages: int): (p: int)
    ensures p <= totalPages && p <= page + 1
    ensures page + 1 <= totalPages ==> p == page + 1
    ensures page + 1 > totalPages ==> p == totalPages
  {
    if totalPages < page + 1 then totalPages else page + 1
  }

  /** Stepping keeps a page that lies within 1..totalPages inside that range. */
  lemma SteppingStaysInRange(page: int, totalPages: int)
    requires 1 <= page <= totalPages
    ensures 1 <= PrevPage(page) <= totalPages
    ensures 1 <= NextPage(page, totalPages) <= totalPages
  {
  }

  /** A disabled button's updater would not move the page anyway. */
  lemma DisabledButtonsAreNoOps(totalPages: int)
    ensures PrevPage(1) == 1
    ensures NextPage(totalPages, totalPages) == totalPages
  {
  }

  /** Past the last page (after the total shrank), "next" moves back to the last page. */
  lemma NextFromBeyondTheEnd(page: int, totalPages: int)
    requires page > totalPages
    ensures NextPage(page, totalPages) == totalPages && NextPage(page, totalPages) < page
  {
  }

  /** The service-unavailable sentinel is shown translated; any other error verbatim. */
  function DisplayError(error: string): (shown: Text)
    ensures error == ServiceUnavailableMessage ==> shown == Translated(ServiceUnavailableKey)
    ensures error != ServiceUnavailableMessage ==> shown == Literal(error)
  {
    if error == ServiceUnavailableMessage then Translated(ServiceUnavailableKey) else Literal(error)
  }

  /** The pagination bar: current page, page count, total, and which buttons are enabled. */
  datatype Pager = Pager(page: int, totalPages: int, total: int, prevEnabled: bool, nextEnabled: bool)

  /** The panel the component renders. */
  datatype ListView =
    | Spinner
    | ErrorPanel(message: Text)
    | EmptyState
    | Grid(documents: seq<UploadedFile>, pager: Option<Pager>)

  /** What is on screen for a given state. */
  function View(loading: bool, error: Option<string>, documents: seq<UploadedFile>, page: int, total: int): (v: ListView)
    ensures loading ==> v == Spinner
    ensures !loading && error.Some? && error.value != "" ==> v == ErrorPanel(DisplayError(error.value))
    ensures !loading && !(error.Some? && error.value != "") ==>
      (documents == [] <==> v == EmptyState) && (documents != [] ==> v.Grid?)
    ensures v.Grid? ==> v.documents == documents && documents != []
    ensures v.Grid? ==> (v.pager.Some? <==> TotalPages(total) > 1)
    ensures v.Grid? && v.pager.Some? ==>
      v.pager.value.page == page && v.pager.value.totalPages == TotalPages(total) && v.pager.value.total == total
    ensures v.Grid? && v.pager.Some? ==>
      (v.pager.value.prevEnabled <==> page != 1) && (v.pager.value.nextEnabled <==> page != TotalPages(total))
  {
    if loading then Spinner
    else if error.Some? && error.value != "" then ErrorPanel(DisplayError(error.value))
    else if documents == [] then EmptyState
    else
      var pages := TotalPages(total);
      Grid(documents, if pages > 1 then Some(Pager(page, pages, total, page != 1, page != pages)) else None)
  }

  /** An empty page shows the empty state, without pagination, whatever the total. */
  lemma EmptyPageHidesPagination(page: int, total: int)
    ensures View(false, None, [], page, total) == EmptyState
  {
  }

  /** The state of the `DocumentList` component. */
  class DocumentListState {
    var documents: seq<UploadedFile>
    var loading: bool
    var error: Option<string>
    var page: int
    var total: int
    /** The backend calls issued, in order. */
    var calls: seq<Operation>

    constructor ()
      ensures documents == [] && loading && error == None && page == 1 && total == 0 && calls == []
    {
      documents, loading, error, page, total := [], true, None, 1, 0;
      calls := [];
    }

    /** The panel rendered for the current state. */
    function Shown(): (v: ListView)
      reads this
      ensures loading ==> v == Spinner
      ensures !loading && error == Some(ServiceUnavailableMessage) ==> v == ErrorPanel(Translated(ServiceUnavailableKey))
      ensures !loading && error.Some? && error.value != "" && error.value != ServiceUnavailableMessage ==>
        v == ErrorPanel(Literal(error.value))
      ensures !loading && !Truthy(error) ==> (v == EmptyState <==> documents == [])
      ensures v.Grid? ==> v.documents == documents
    {
      View(loading, error, documents, page, total)
    }

    /** `fetchDocuments` for the current page, given the outcome of the list request. */
    method FetchDocuments(response: Result<FilesPage, ApiError>)
      modifies this
      ensures calls == old(calls) + [ListDocuments(Some(old(page)), Some(PageSize))]
      ensures !loading && page == old(page)
      ensures response.Success? ==>
        documents == response.value.files && total == response.value.total && error == None
      ensures response.Failure? ==>
        documents == old(documents) && total == old(total) &&
        error == Some(Or(Some(response.error.detail), LoadFailedMessage))
    {
      loading := true;
      error := None;
      calls := calls + [ListDocuments(Some(page), Some(PageSize))];
      match response {
        case Success(list) =>
          documents := list.files;
          total := list.total;
        case Failure(e) =>
          error := Some(Or(Some(e.detail), LoadFailedMessage));
      }
      loading := false;
    }

    /** `handleDelete`: a successful delete refetches the page; a failed one only sets the error. */
    method HandleDelete(fileId: string, deleted: Result<DeleteResponse, ApiError>, refetched: Result<FilesPage, ApiError>)
      modifies this
      ensures deleted.Success? ==>
        calls == old(calls) + [DeleteDocument(fileId), ListDocuments(Some(old(page)), Some(PageSize))] &&
        !loading && page == old(page) &&
        (refetched.Success? ==> documents == refetched.value.files && total == refetched.value.total && error == None) &&
        (refetched.Failure? ==>
           documents == old(documents) && total == old(total) &&
           error == Some(Or(Some(refetched.error.detail), LoadFailedMessage)))
      ensures deleted.Failure? ==>
        calls == old(calls) + [DeleteDocument(fileId)] &&
        error == Some(Or(Some(deleted.error.detail), DeleteFailedMessage)) &&
        documents == old(documents) && total == old(total) && page == old(page) && loading == old(loading)
    {
      calls := calls + [DeleteDocument(fileId)];
      match deleted {
        case Success(_) =>
          FetchDocuments(refetched);
        case Failure(e) =>
          error := Some(Or(Some(e.detail), DeleteFailedMessage));
      }
    }

    /** The previous-page button (rendered only when there is more than one page). */
    method GoPrev()
      requires TotalPages(total) > 1
      modifies this
      ensures page == PrevPage(old(page))
      ensures documents == old(documents) && total == old(total) && error == old(error) && loading == old(loading)
      ensures calls == old(calls)
    {
      page := PrevPage(page);
    }

    /** The next-page button (rendered only when there is more than one page). */
    method GoNext()
      requires TotalPages(total) > 1
      modifies this
      ensures page == NextPage(old(page), TotalPages(total))
      ensures documents == old(documents) && total == old(total) && error == old(error) && loading == old(loading)
      ensures calls == old(calls)
    {
      page := NextPage(page, TotalPages(total));
    }
  }

  /**
   * Paging to the last of three pages and deleting its only document leaves
   * the list on an empty page.
   */
  method DeleteLastOnLastPage(doc: UploadedFile, others: seq<UploadedFile>)
  {
    var list := new DocumentListState();
    list.FetchDocuments(Success(FilesPage(others, 25, 1, PageSize)));
    list.GoNext();
    list.FetchDocuments(Success(FilesPage(others, 25, 2, PageSize)));
    list.GoNext();
    list.FetchDocuments(Success(FilesPage([doc], 25, 3, PageSize)));
    assert list.page == 3 && list.documents == [doc];
    list.HandleDelete(doc.fileId, Success(DeleteResponse(doc.fileId, "deleted", "")), Success(FilesPage([], 24, 3, PageSize)));
    assert list.Shown() == EmptyState;
    assert TotalPages(list.total) == 2 && list.page == 3;
  }
}

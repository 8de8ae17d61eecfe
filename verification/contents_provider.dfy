/** `ContentsProvider`: the content list of the older, provider-based client.
    It builds its filters like the global state, but sorts by the grid's
    sorting argument, asks for the page it is given as is, shows only the
    configured metadata columns, keeps the selection when a page arrives,
    and sends the selection without skipping missing rows. */
module ContentsProvider {
  import opened Common
  import opened FrontendTypes
  import Urls
  import opened ContentSearch

  /** The metadata type names shown as extra columns of the content table. */
  const ContentDisplay: seq<string> := ["Language", "Creator", "Subject"]

  /** The initial search form. */
  const InitialSearch := SearchState(ActiveOnly, "", None, None, "", [], None, None, "", None, None)

  class ContentsProvider {
    var loaded: bool
    var lastRequestTimestamp: int
    var displayRows: seq<DisplayRow>
    var loadedContent: seq<SerializedContent>
    var totalCount: int
    var search: SearchState
    var selection: seq<int>

    /** The initial state. */
    constructor ()
      ensures !loaded && lastRequestTimestamp == 0 && displayRows == [] && loadedContent == []
      ensures totalCount == 0 && search == InitialSearch && selection == []
    {
      loaded := false;
      lastRequestTimestamp := 0;
      displayRows := [];
      loadedContent := [];
      totalCount := 0;
      search := InitialSearch;
      selection := [];
    }

    /** The query of the request `load_content_rows(page, size, sorting)`
        sends: no `duplicatable` filter, and the page as given. */
    method ContentRequest(currentPage: int, pageSize: int, sorting: seq<Sorting>) returns (params: seq<Urls.Param>)
      ensures params == Urls.ContentPageParams(currentPage, pageSize, BuildFilters(search, sorting, None))
    {
      params := Urls.ContentPage(currentPage, pageSize, Some(BuildFilters(search, sorting, None)));
    }

    /** The reply to a request sent at `requestTimestamp`: applied only when
        no later request has been applied; the selection stays as it was. */
    method ReceiveContentPage(requestTimestamp: int, rows: seq<SerializedContent>, count: int)
      modifies this
      ensures Accepts(old(lastRequestTimestamp), requestTimestamp) ==>
                && lastRequestTimestamp == requestTimestamp && loadedContent == rows
                && displayRows == DisplayRows(rows, ContentDisplay) && totalCount == count
      ensures !Accepts(old(lastRequestTimestamp), requestTimestamp) ==>
                && lastRequestTimestamp == old(lastRequestTimestamp) && loadedContent == old(loadedContent)
                && displayRows == old(displayRows) && totalCount == old(totalCount)
      ensures loaded == old(loaded) && search == old(search) && selection == old(selection)
    {
      if Accepts(lastRequestTimestamp, requestTimestamp) {
        lastRequestTimestamp := requestTimestamp;
        loadedContent := rows;
        displayRows := MakeDisplayRows(rows, ContentDisplay);
        totalCount := count;
      }
    }

    /** The ids `add_selected_to_folder` posts; `None` when a selected index
        has no row, where reading its `id` throws. */
    method SelectedForFolder() returns (ids: Option<seq<int>>)
      ensures ids == SelectedIdsStrict(selection, loadedContent)
    {
      var sent: seq<int> := [];
      var i := 0;
      while i < |selection|
        invariant 0 <= i <= |selection|
        invariant SelectedIdsStrict(selection[..i], loadedContent) == Some(sent)
      {
        var idx := selection[i];
        assert selection[..i + 1][..i] == selection[..i];
        if !(0 <= idx < |loadedContent|) {
          StrictStaysNone(selection, loadedContent, i + 1);
          assert selection[..|selection|] == selection;
          return None;
        }
        sent := sent + [loadedContent[idx].id];
        i := i + 1;
      }
      assert selection[..i] == selection;
      ids := Some(sent);
    }
  }

  /** Once the strict selection throws, it throws for every longer prefix. */
  lemma {:induction false} StrictStaysNone(selection: seq<int>, loaded: seq<SerializedContent>, n: nat)
    requires n <= |selection| && SelectedIdsStrict(selection[..n], loaded).None?
    ensures SelectedIdsStrict(selection, loaded).None?
    decreases |selection| - n
  {
    if n < |selection| {
      assert selection[..n + 1][..n] == selection[..n];
      StrictStaysNone(selection, loaded, n + 1);
    } else {
      assert selection[..n] == selection;
    }
  }
}

/** The pages tab: the project's pages, each with its functionalities, the two
    creation dialogs, deletion after confirmation, and which pages are
    expanded. */
module PagesTab {
  import opened Wrappers
  import opened Types
  import opened Api
  import opened ListOps
  import opened EntityLoad

  datatype PagesState = PagesState(
    pages: seq<Page>,
    loading: bool,
    showAddPage: bool,
    showAddFunc: bool,
    selectedPageId: Option<int>,
    expanded: set<int>)

  const Initial := PagesState([], true, false, false, None, {})

  // ---------------------------------------------------------------------------
  // Loading

  /** `Promise.all` over the pages, each page given its fetched functionality
      list: it settles only when every request succeeded. */
  function AttachFunctionalities(pages: seq<Page>, fetch: Fetch): (r: Result<seq<Page>>)
    ensures r.Success? <==> AllFetched(pages, fetch)
    ensures r.Success? ==> |r.value| == |pages|
    ensures r.Success? ==> forall i :: 0 <= i < |pages| ==>
              r.value[i].(functionalities := pages[i].functionalities) == pages[i] &&
              r.value[i].functionalities == Some(fetch(pages[i].id).value)
  {
    if AllFetched(pages, fetch) then
      Success(seq(|pages|, i requires 0 <= i < |pages| =>
        pages[i].(functionalities := Some(fetch(pages[i].id).value))))
    else
      Failure
  }

  /** One load of the tab; the spinner goes away whatever happened. */
  function LoadPages(s: PagesState, pagesRes: Result<seq<Page>>, fetch: Fetch): (r: PagesState)
    ensures !r.loading
    ensures pagesRes.Success? && AllFetched(pagesRes.value, fetch) ==>
              r.pages == AttachFunctionalities(pagesRes.value, fetch).value
    ensures !(pagesRes.Success? && AllFetched(pagesRes.value, fetch)) ==> r.pages == s.pages
    ensures r.(pages := s.pages, loading := s.loading) == s
  {
    var loaded :=
      match pagesRes
      case Failure => s.pages
      case Success(pages) =>
        match AttachFunctionalities(pages, fetch)
        case Failure => s.pages
        case Success(attached) => attached;
    s.(pages := loaded, loading := false)
  }

  /** Each page's functionality list, an unloaded one counting as empty. */
  function FunctionalityLists(pages: seq<Page>): (r: seq<seq<Functionality>>)
    ensures |r| == |pages|
  {
    seq(|pages|, i requires 0 <= i < |pages| => pages[i].functionalities.GetOr([]))
  }

  /** The pages tab and the users tab see the same functionalities: the lists
      attached to the pages, in page order, concatenate to what the users tab
      gathers one page after another. */
  lemma AttachAgreesWithGather(pages: seq<Page>, fetch: Fetch)
    requires AllFetched(pages, fetch)
    ensures AttachFunctionalities(pages, fetch).Success?
    ensures Gather(pages, fetch).Success?
    ensures Flatten(FunctionalityLists(AttachFunctionalities(pages, fetch).value)) ==
              Gather(pages, fetch).value
  {
    var attached := AttachFunctionalities(pages, fetch).value;
    assert FunctionalityLists(attached) == Fetched(pages, fetch);
  }

  // ---------------------------------------------------------------------------
  // Creation

  /** A page came back from the "Create New Page" dialog: it is listed last,
      with an empty functionality list, and the dialog closes. */
  function HandlePageCreated(s: PagesState, page: Page): (r: PagesState)
    ensures |r.pages| == |s.pages| + 1 && r.pages[..|s.pages|] == s.pages
    ensures r.pages[|s.pages|].(functionalities := page.functionalities) == page
    ensures r.pages[|s.pages|].functionalities == Some([])
    ensures !r.showAddPage
    ensures r.(pages := s.pages, showAddPage := s.showAddPage) == s
  {
    s.(pages := s.pages + [page.(functionalities := Some([]))], showAddPage := false)
  }

  /** The "Add Functionality" button of a page. */
  function OpenAddFunctionality(s: PagesState, pageId: int): (r: PagesState)
    ensures r.showAddFunc && r.selectedPageId == Some(pageId)
    ensures r.(showAddFunc := s.showAddFunc, selectedPageId := s.selectedPageId) == s
  {
    s.(showAddFunc := true, selectedPageId := Some(pageId))
  }

  /** `pages.map(...)` appending `f` to the list of each page with its page id. */
  function AppendToPage(pages: seq<Page>, f: Functionality): (r: seq<Page>)
    ensures |r| == |pages|
    ensures forall i :: 0 <= i < |pages| && pages[i].id != f.pageId ==> r[i] == pages[i]
    ensures forall i :: 0 <= i < |pages| && pages[i].id == f.pageId ==>
              r[i].(functionalities := pages[i].functionalities) == pages[i] &&
              r[i].functionalities == Some(pages[i].functionalities.GetOr([]) + [f])
  {
    seq(|pages|, i requires 0 <= i < |pages| =>
      if pages[i].id == f.pageId then
        pages[i].(functionalities := Some(pages[i].functionalities.GetOr([]) + [f]))
      else
        pages[i])
  }

  /** A functionality came back from its dialog: it is listed last on its page,
      the dialog closes and forgets the page. */
  function HandleFunctionalityCreated(s: PagesState, f: Functionality): (r: PagesState)
    ensures r.pages == AppendToPage(s.pages, f)
    ensures !r.showAddFunc && r.selectedPageId.None?
    ensures r.(pages := s.pages, showAddFunc := s.showAddFunc, selectedPageId := s.selectedPageId) == s
  {
    s.(pages := AppendToPage(s.pages, f), showAddFunc := false, selectedPageId := None)
  }

  /** The created functionality is listed on its page, and on no other. */
  lemma CreatedFunctionalityListed(s: PagesState, f: Functionality, i: int)
    requires 0 <= i < |s.pages|
    requires f !in s.pages[i].functionalities.GetOr([])
    ensures var fs := HandleFunctionalityCreated(s, f).pages[i].functionalities.GetOr([]);
            f in fs <==> s.pages[i].id == f.pageId
  {
  }

  // ---------------------------------------------------------------------------
  // Deletion

  /** The delete button of a page, after the confirmation dialog: cancelling
      does nothing; otherwise the delete request goes out and, once it
      succeeds, the page leaves the list. A failure leaves the list alone. */
  function HandleDeletePage(s: PagesState, pageId: int, confirmed: bool, outcome: Outcome): (r: Handled<PagesState>)
    ensures r.request.Some? <==> confirmed
    ensures confirmed ==> r.request == Some(DeletePage(pageId))
    ensures confirmed && outcome.Pass? ==> r.state == s.(pages := RemoveKey(s.pages, PageKey, pageId))
    ensures !(confirmed && outcome.Pass?) ==> r.state == s
  {
    if !confirmed then
      Handled(s, None)
    else if outcome.Pass? then
      Handled(s.(pages := RemoveKey(s.pages, PageKey, pageId)), Some(DeletePage(pageId)))
    else
      Handled(s, Some(DeletePage(pageId)))
  }

  /** After a successful delete no page has the id, and every other page is
      still listed. */
  lemma DeletedPageGone(s: PagesState, pageId: int, p: Page)
    ensures var r := HandleDeletePage(s, pageId, true, Pass).state;
            p in r.pages <==> p in s.pages && p.id != pageId
  {
    RemoveKeyMembers(s.pages, PageKey, pageId, p);
  }

  /** Creating a page with a fresh id and deleting it again restores the list. */
  lemma CreateThenDeletePage(s: PagesState, page: Page)
    requires forall i :: 0 <= i < |s.pages| ==> s.pages[i].id != page.id
    ensures HandleDeletePage(HandlePageCreated(s, page), page.id, true, Pass).state.pages == s.pages
  {
    RemoveKeyAppended(s.pages, page.(functionalities := Some([])), PageKey, page.id);
  }

  /** `functionalities?.filter(f => f.id !== funcId)`: an unloaded list stays unloaded. */
  function RemoveFromList(fs: Option<seq<Functionality>>, funcId: int): (r: Option<seq<Functionality>>)
    ensures r.None? <==> fs.None?
    ensures r.Some? ==> r.value == RemoveKey(fs.value, FunctionalityKey, funcId)
  {
    match fs
    case None => None
    case Some(list) => Some(RemoveKey(list, FunctionalityKey, funcId))
  }

  /** `pages.map(...)` dropping functionality `funcId` from the pages with id `pageId`. */
  function RemoveFromPage(pages: seq<Page>, funcId: int, pageId: int): (r: seq<Page>)
    ensures |r| == |pages|
    ensures forall i :: 0 <= i < |pages| && pages[i].id != pageId ==> r[i] == pages[i]
    ensures forall i :: 0 <= i < |pages| && pages[i].id == pageId ==>
              r[i] == pages[i].(functionalities := RemoveFromList(pages[i].functionalities, funcId))
  {
    seq(|pages|, i requires 0 <= i < |pages| =>
      if pages[i].id == pageId then
        pages[i].(functionalities := RemoveFromList(pages[i].functionalities, funcId))
      else
        pages[i])
  }

  /** The delete button of a functionality, after the confirmation dialog. */
  function HandleDeleteFunctionality(
    s: PagesState, funcId: int, pageId: int, confirmed: bool, outcome: Outcome): (r: Handled<PagesState>)
    ensures r.request.Some? <==> confirmed
    ensures confirmed ==> r.request == Some(DeleteFunctionality(funcId))
    ensures confirmed && outcome.Pass? ==> r.state == s.(pages := RemoveFromPage(s.pages, funcId, pageId))
    ensures !(confirmed && outcome.Pass?) ==> r.state == s
  {
    if !confirmed then
      Handled(s, None)
    else if outcome.Pass? then
      Handled(s.(pages := RemoveFromPage(s.pages, funcId, pageId)), Some(DeleteFunctionality(funcId)))
    else
      Handled(s, Some(DeleteFunctionality(funcId)))
  }

  /** The lists of the pages with id `pageId` hold no functionality `funcId`
      after a successful delete, and keep every other one. */
  lemma DeletedFunctionalityGone(s: PagesState, funcId: int, pageId: int, i: int, f: Functionality)
    requires 0 <= i < |s.pages| && s.pages[i].id == pageId
    requires s.pages[i].functionalities.Some?
    ensures var fs := HandleDeleteFunctionality(s, funcId, pageId, true, Pass).state.pages[i].functionalities;
            fs.Some? && (f in fs.value <==> f in s.pages[i].functionalities.value && f.id != funcId)
  {
    RemoveKeyMembers(s.pages[i].functionalities.value, FunctionalityKey, funcId, f);
  }

  /** A page's list with no functionality `id` yet. */
  predicate LoadedWithout(p: Page, id: int) {
    p.functionalities.Some? &&
    forall j :: 0 <= j < |p.functionalities.value| ==> p.functionalities.value[j].id != id
  }

  /** Creating a functionality with a fresh id and deleting it again restores
      every page, provided its page's list was loaded. */
  lemma CreateThenDeleteFunctionality(s: PagesState, f: Functionality)
    requires forall i :: 0 <= i < |s.pages| && s.pages[i].id == f.pageId ==> LoadedWithout(s.pages[i], f.id)
    ensures HandleDeleteFunctionality(HandleFunctionalityCreated(s, f), f.id, f.pageId, true, Pass).state.pages ==
              s.pages
  {
    var added := AppendToPage(s.pages, f);
    var back := RemoveFromPage(added, f.id, f.pageId);
    forall i | 0 <= i < |s.pages|
      ensures back[i] == s.pages[i]
    {
      if s.pages[i].id == f.pageId {
        var fs := s.pages[i].functionalities.value;
        RemoveKeyAppended(fs, f, FunctionalityKey, f.id);
      }
    }
  }

  // ---------------------------------------------------------------------------
  // Expansion

  /** A click on a page's header opens or closes it. */
  function TogglePageExpanded(s: PagesState, pageId: int): (r: PagesState)
    ensures pageId in r.expanded <==> pageId !in s.expanded
    ensures forall x :: x != pageId ==> (x in r.expanded <==> x in s.expanded)
    ensures r.(expanded := s.expanded) == s
  {
    if pageId in s.expanded then s.(expanded := s.expanded - {pageId})
    else s.(expanded := s.expanded + {pageId})
  }

  /** Two clicks on the same header restore the tab. */
  lemma {:induction false} TogglePageExpandedTwice(s: PagesState, pageId: int)
    ensures TogglePageExpanded(TogglePageExpanded(s, pageId), pageId) == s
  {
    var r := TogglePageExpanded(TogglePageExpanded(s, pageId), pageId);
    assert r.expanded == s.expanded;
  }
}

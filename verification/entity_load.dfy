/** Loading a project's users, pages and functionalities, as the users tab
    (`loadData`) and the workflow editor (`loadEntities`) both do: users and
    pages are fetched together, then each page's functionalities one page after
    another, and the functionality list is the concatenation in page order. */
module EntityLoad {
  import opened Wrappers
  import opened Types
  import opened ListOps

  /** `functionalitiesApi.getByPage(pageId)`: the response for each page id. */
  type Fetch = int -> Result<seq<Functionality>>

  /** Every page's functionality request succeeds. */
  predicate AllFetched(pages: seq<Page>, fetch: Fetch) {
    forall i :: 0 <= i < |pages| ==> fetch(pages[i].id).Success?
  }

  /** The functionality lists the pages' requests returned, in page order. */
  function Fetched(pages: seq<Page>, fetch: Fetch): (r: seq<seq<Functionality>>)
    requires AllFetched(pages, fetch)
    ensures |r| == |pages|
  {
    seq(|pages|, i requires 0 <= i < |pages| => fetch(pages[i].id).value)
  }

  /** The loop `for (const page of pages) { allFuncs.push(...(await getByPage(page.id)).data) }`:
      the first failing request ends it. */
  function Gather(pages: seq<Page>, fetch: Fetch): (r: Result<seq<Functionality>>)
    ensures r.Success? <==> AllFetched(pages, fetch)
    ensures r.Success? ==> r.value == Flatten(Fetched(pages, fetch))
    decreases |pages|
  {
    if |pages| == 0 then
      Success([])
    else
      var init := pages[..|pages| - 1];
      var last := pages[|pages| - 1];
      assert forall i :: 0 <= i < |init| ==> init[i] == pages[i];
      match Gather(init, fetch)
      case Failure =>
        Failure
      case Success(acc) =>
        match fetch(last.id)
        case Failure =>
          Failure
        case Success(fs) =>
          assert Fetched(pages, fetch)[..|pages| - 1] == Fetched(init, fetch);
          Success(acc + fs)
  }

  /** A functionality is gathered exactly when some page's response holds it. */
  lemma GatherMembers(pages: seq<Page>, fetch: Fetch, f: Functionality)
    requires AllFetched(pages, fetch)
    ensures Gather(pages, fetch).Success?
    ensures f in Gather(pages, fetch).value <==>
              exists i :: 0 <= i < |pages| && f in fetch(pages[i].id).value
  {
    var xss := Fetched(pages, fetch);
    FlattenMembers(xss, f);
    if f in Gather(pages, fetch).value {
      var i :| 0 <= i < |xss| && f in xss[i];
      assert f in fetch(pages[i].id).value;
    }
    if exists i :: 0 <= i < |pages| && f in fetch(pages[i].id).value {
      var i :| 0 <= i < |pages| && f in fetch(pages[i].id).value;
      assert f in xss[i];
    }
  }

  /** The gathered list is as long as all the pages' lists together. */
  lemma GatherLength(pages: seq<Page>, fetch: Fetch)
    requires AllFetched(pages, fetch)
    ensures Gather(pages, fetch).Success?
    ensures |Gather(pages, fetch).value| == TotalLength(Fetched(pages, fetch))
  {
    FlattenLength(Fetched(pages, fetch));
  }

  /** The entity lists a component holds for its project. */
  datatype Entities = Entities(
    users: seq<RequirementUser>,
    pages: seq<Page>,
    functionalities: seq<Functionality>)

  /** One load: users and pages are assigned as soon as both requests succeed;
      the functionality list only once every page's request has succeeded, and
      otherwise keeps its earlier value. A failure is caught and logged. */
  function LoadEntities(
    e: Entities,
    usersRes: Result<seq<RequirementUser>>,
    pagesRes: Result<seq<Page>>,
    fetch: Fetch): (r: Entities)
    ensures usersRes.Failure? || pagesRes.Failure? ==> r == e
    ensures usersRes.Success? && pagesRes.Success? ==>
              r.users == usersRes.value && r.pages == pagesRes.value
    ensures usersRes.Success? && pagesRes.Success? && AllFetched(pagesRes.value, fetch) ==>
              r.functionalities == Flatten(Fetched(pagesRes.value, fetch))
    ensures !(usersRes.Success? && pagesRes.Success? && AllFetched(pagesRes.value, fetch)) ==>
              r.functionalities == e.functionalities
  {
    if usersRes.Failure? || pagesRes.Failure? then
      e
    else
      var loaded := e.(users := usersRes.value, pages := pagesRes.value);
      match Gather(pagesRes.value, fetch)
      case Success(funcs) => loaded.(functionalities := funcs)
      case Failure => loaded
  }
}

/**
 * The "All posts" page as a component with state: the page held in the URL, the posts and
 * total of the last answered fetch, the loading and error flags, and one run of the load
 * effect, whose `alive` flag decides whether its answer may still touch that state.
 */
module ArticlesState {
  import opened Wrappers
  import opened ArticleCard
  import opened Articles

  /** How the query settled: its `{ items, total }`, or the message of what it threw. */
  datatype FetchOutcome = Fetched(items: seq<PostRow>, total: nat) | FetchFailed(message: string)

  class ArticlesPage {
    /** `Number(searchParams.get("page") || "1")`; `None` stands for NaN and the infinities. */
    var rawPage: Option<real>
    var posts: seq<PostPreview>
    var total: nat
    var loading: bool
    var error: Option<string>

    /** A freshly mounted page: nothing loaded, loading, no error. */
    constructor (rawPage: Option<real>)
      ensures this.rawPage == rawPage
      ensures posts == [] && total == 0 && loading && error == None
      ensures ShownPage() == 1
    {
      this.rawPage := rawPage;
      posts := [];
      total := 0;
      loading := true;
      error := None;
    }

    /** The normalised page requested by the URL. */
    function Page(): (p: int)
      reads this
      ensures p >= 1
    {
      NormalizePage(rawPage)
    }

    /** `totalPages`. */
    function PageCount(): (n: nat)
      reads this
      ensures n >= 1
    {
      TotalPages(total)
    }

    /** `safePage`: the page shown and fetched, always one that exists. */
    function ShownPage(): (p: int)
      reads this
      ensures 1 <= p <= PageCount()
      ensures p == Page() <==> Page() <= PageCount()
    {
      SafePage(Page(), PageCount())
    }

    /** The "Prev" button is enabled. */
    predicate PrevEnabled()
      reads this
    {
      !(ShownPage() <= 1 || loading)
    }

    /** The "Next" button is enabled. */
    predicate NextEnabled()
      reads this
    {
      !(ShownPage() >= PageCount() || loading)
    }

    /** `setPage`: writes the clamped page into the URL; the loaded state is left alone. */
    method SetPage(next: int)
      modifies this`rawPage
      ensures Page() == ClampPage(next, PageCount())
      ensures ShownPage() == Page()
      ensures rawPage == Some(ClampPage(next, PageCount()) as real)
      ensures 1 <= next <= PageCount() ==> Page() == next
    {
      var p := ClampPage(next, PageCount());
      rawPage := Some(p as real);
      NormalizeIntegerPage(p);
    }
  }

  /** An enabled "Prev" or "Next" moves exactly one page: the clamp never has to intervene. */
  lemma ButtonsMoveOnePage(view: ArticlesPage)
    ensures view.PrevEnabled() ==> ClampPage(view.ShownPage() - 1, view.PageCount()) == view.ShownPage() - 1
    ensures view.NextEnabled() ==> ClampPage(view.ShownPage() + 1, view.PageCount()) == view.ShownPage() + 1
  {
  }

  /** One run of the load effect. */
  class Load {
    const view: ArticlesPage
    /** The slice this run asks for. */
    const start: int
    const end: int
    /** Cleared by the effect's cleanup when the page changes or unmounts. */
    var alive: bool

    /** The run starts: it clears the error, sets loading and asks for the shown page's slice. */
    constructor (view: ArticlesPage)
      modifies view
      ensures this.view == view && alive
      ensures start == SliceStart(old(view.ShownPage())) && end == SliceEnd(old(view.ShownPage()))
      ensures 0 <= start && end - start == PageSize
      ensures view.error == None && view.loading
      ensures view.rawPage == old(view.rawPage) && view.posts == old(view.posts) && view.total == old(view.total)
    {
      var shown := view.ShownPage();
      this.view := view;
      start := SliceStart(shown);
      end := SliceEnd(shown);
      alive := true;
      new;
      view.error := None;
      view.loading := true;
    }

    /** The effect's cleanup. */
    method Cancel()
      modifies this`alive
      ensures !alive
    {
      alive := false;
    }

    /**
     * The fetch answers. While the run is alive, success stores the mapped rows and the total,
     * failure empties the list, zeroes the total and records the message, and either way
     * loading ends. Once the run is no longer alive nothing changes.
     */
    method Settle(outcome: FetchOutcome)
      modifies view
      ensures !alive ==> unchanged(view)
      ensures alive && outcome.Fetched? ==>
        && view.posts == MapRows(outcome.items) && view.total == outcome.total
        && view.error == old(view.error)
      ensures alive && outcome.FetchFailed? ==>
        && view.posts == [] && view.total == 0 && view.error == Some(outcome.message)
      ensures alive ==> !view.loading && view.rawPage == old(view.rawPage)
    {
      match outcome {
        case Fetched(items, total) =>
          var mapped := MapRows(items);
          if alive {
            view.posts := mapped;
            view.total := total;
          }
        case FetchFailed(message) =>
          if alive {
            view.error := Some(message);
            view.posts := [];
            view.total := 0;
          }
      }
      if alive {
        view.loading := false;
      }
    }
  }

  /**
   * The URL's page changes (a link, or back and forward) while the first fetch is in flight,
   * and the page to show changes with it, so the effect re-runs: the first run is cleaned up
   * and a second asks for the new page's slice. Whatever the first fetch later answers, the
   * state once the second answer lands is the second run's. When that answer keeps the page
   * count, the page shown is the one fetched and no further run follows.
   */
  method StaleAnswerIsDiscarded(view: ArticlesPage, raw: Option<real>, stale: FetchOutcome, current: FetchOutcome)
    returns (requested: int)
    requires SafePage(NormalizePage(raw), TotalPages(view.total)) != view.ShownPage()
    modifies view
    ensures view.rawPage == raw
    ensures requested == SliceStart(SafePage(NormalizePage(raw), TotalPages(old(view.total))))
    ensures requested != SliceStart(old(view.ShownPage()))
    ensures current.Fetched? ==> view.posts == MapRows(current.items) && view.total == current.total && view.error == None
    ensures current.FetchFailed? ==> view.posts == [] && view.total == 0 && view.error == Some(current.message)
    ensures !view.loading
    ensures view.PageCount() == TotalPages(old(view.total)) ==> SliceStart(view.ShownPage()) == requested
  {
    var first := new Load(view);
    view.rawPage := raw;
    first.Cancel();
    var second := new Load(view);
    requested := second.start;
    first.Settle(stale);
    second.Settle(current);
  }

  /**
   * The URL changes while the fetch is in flight but the page to show does not (say `?page=9`
   * becomes `?page=7` while there is one page): the effect does not re-run, and the state
   * once the answer lands is that answer's. When the answer keeps the page count, the page
   * shown is the one fetched and no further run follows.
   */
  method SamePageKeepsAnswer(view: ArticlesPage, raw: Option<real>, outcome: FetchOutcome)
    returns (requested: int)
    requires SafePage(NormalizePage(raw), TotalPages(view.total)) == view.ShownPage()
    modifies view
    ensures view.rawPage == raw
    ensures requested == SliceStart(old(view.ShownPage()))
    ensures outcome.Fetched? ==> view.posts == MapRows(outcome.items) && view.total == outcome.total && view.error == None
    ensures outcome.FetchFailed? ==> view.posts == [] && view.total == 0 && view.error == Some(outcome.message)
    ensures !view.loading
    ensures view.PageCount() == TotalPages(old(view.total)) ==> SliceStart(view.ShownPage()) == requested
  {
    var run := new Load(view);
    requested := run.start;
    view.rawPage := raw;
    run.Settle(outcome);
  }
}

/**
 * The product feed of the Home page: the first page load, the paged "load more" with its
 * in-flight guard, and the sentinel that triggers it, as transitions of a state value.
 * The class in module HomePage keeps the same state in fields and is specified by these
 * functions.
 */
module Feed {
  import opened Wrappers

  /** Rows per page request. */
  const PageSize: int := 5
  /** The page's loading limit; a soft one, see SessionBounds. */
  const MaxProducts: int := 22
  /** Loaded count from which an unauthenticated visitor sees the call-to-action overlay. */
  const CtaThreshold: int := 20

  /** A product row as the page uses it; instants are milliseconds. */
  datatype Product = Product(id: int, createdAt: int, releaseTime: Option<int>)

  /** The reply to one products query: rows, a reply whose data is null, or an error. */
  datatype Response = Rows(rows: seq<Product>) | NoData | QueryError

  /** An inclusive row range, as the query's `range(start, end)` takes it. */
  datatype Window = Window(start: int, end: int)

  /** The feed part of the component state. */
  datatype FeedState = FeedState(
    products: seq<Product>,
    page: int,
    total: int,
    hasMore: bool,
    loading: bool,
    loadingMore: bool)

  /** The state when the page mounts, before the first page has arrived. */
  function Initial(): FeedState {
    FeedState([], 1, 0, true, true, false)
  }

  /** A reply to a one-page window holds at most one page of rows. */
  predicate FitsPage(resp: Response) {
    resp.Rows? ==> |resp.rows| <= PageSize
  }

  /** The window of the first page. */
  function FirstWindow(): Window {
    Window(0, PageSize - 1)
  }

  /** The window loadMoreProducts requests from `page`: the page after it, counted from 1. */
  function NextWindow(page: int): (w: Window)
    ensures w.start == page * PageSize && w.end - w.start + 1 == PageSize
  {
    var nextPage := page + 1;
    Window(nextPage * PageSize - PageSize, nextPage * PageSize - 1)
  }

  /**
   * fetchProducts once its query has answered: an error leaves the feed as it was, any
   * other answer replaces it; the feed has more exactly when a full page came back.
   */
  function FirstPage(s: FeedState, resp: Response): (r: FeedState)
    ensures !r.loading && r.page == s.page && r.loadingMore == s.loadingMore
    ensures resp.QueryError? ==> r == s.(loading := false)
    ensures resp.Rows? ==> r.products == resp.rows
    ensures resp.NoData? ==> r.products == []
    ensures !resp.QueryError? ==>
      r.total == |r.products| && (r.hasMore <==> resp.Rows? && |resp.rows| == PageSize)
  {
    match resp
    case QueryError => s.(loading := false)
    case NoData => s.(products := [], total := 0, hasMore := false, loading := false)
    case Rows(rows) =>
      s.(products := rows, total := |rows|, hasMore := |rows| == PageSize, loading := false)
  }

  /** The request loadMoreProducts issues: none while a load is in flight. */
  function Request(s: FeedState): (w: Option<Window>)
    ensures w.Some? <==> !s.loadingMore
    ensures w.Some? ==> w.value.start == s.page * PageSize
  {
    if s.loadingMore then None else Some(NextWindow(s.page))
  }

  /** The part of loadMoreProducts before its query: a call while in flight changes nothing. */
  function Start(s: FeedState): (r: FeedState)
    ensures r.loadingMore && Request(r).None?
    ensures r.(loadingMore := s.loadingMore) == s
  {
    if s.loadingMore then s else s.(loadingMore := true)
  }

  /**
   * The part of loadMoreProducts after its query has answered. A non-empty page is
   * appended and advances the page; an empty or null one ends the feed; an error changes
   * nothing but the in-flight flag, which every outcome clears.
   */
  function Finish(s: FeedState, resp: Response): (r: FeedState)
    ensures !r.loadingMore && r.loading == s.loading
    ensures |s.products| <= |r.products| && r.products[..|s.products|] == s.products
    ensures r.total - s.total == |r.products| - |s.products|
    ensures resp.Rows? && resp.rows != [] ==>
      r.products == s.products + resp.rows && r.page == s.page + 1 &&
      (r.hasMore <==> |resp.rows| == PageSize && r.total < MaxProducts)
    ensures (resp.NoData? || resp == Rows([])) ==> r == s.(hasMore := false, loadingMore := false)
    ensures resp.QueryError? ==> r == s.(loadingMore := false)
  {
    match resp
    case Rows(rows) =>
      if |rows| > 0 then
        var newTotal := s.total + |rows|;
        s.(products := s.products + rows, page := s.page + 1, total := newTotal,
           hasMore := |rows| == PageSize && newTotal < MaxProducts, loadingMore := false)
      else
        s.(hasMore := false, loadingMore := false)
    case NoData => s.(hasMore := false, loadingMore := false)
    case QueryError => s.(loadingMore := false)
  }

  /**
   * Whether a visible sentinel starts a load: the sentinel is the last rendered product, the
   * observer is armed only while nothing is loading, and its callback needs `hasMore`.
   */
  predicate ShouldLoad(s: FeedState, visible: bool)
    ensures ShouldLoad(s, visible) ==> Request(s).Some? && Start(s) != s
  {
    visible && s.products != [] && s.hasMore && !s.loading && !s.loadingMore
  }

  /** What can happen to the feed: a reply to the first query, the sentinel, a later reply. */
  datatype Event = FirstReply(first: Response) | SentinelVisible | MoreReply(more: Response)

  predicate EventFits(e: Event) {
    match e
    case FirstReply(resp) => FitsPage(resp)
    case SentinelVisible => true
    case MoreReply(resp) => FitsPage(resp)
  }

  /** One event; a reply no request is waiting for does nothing. */
  function Step(s: FeedState, e: Event): (r: FeedState)
    ensures !s.hasMore && !s.loading && !s.loadingMore ==> r == s
    ensures e.SentinelVisible? ==> r.products == s.products && r.page == s.page
  {
    match e
    case FirstReply(resp) => if s.loading then FirstPage(s, resp) else s
    case SentinelVisible => if ShouldLoad(s, true) then Start(s) else s
    case MoreReply(resp) => if s.loadingMore then Finish(s, resp) else s
  }

  function Run(s: FeedState, es: seq<Event>): FeedState
    decreases |es|
  {
    if es == [] then s else Run(Step(s, es[0]), es[1..])
  }

  /** How many of the events start a load (issue a page request). */
  function LoadsStarted(s: FeedState, es: seq<Event>): nat
    decreases |es|
  {
    if es == [] then 0
    else
      var started := if es[0].SentinelVisible? && ShouldLoad(s, true) then 1 else 0;
      started + LoadsStarted(Step(s, es[0]), es[1..])
  }

  predicate AllFit(es: seq<Event>) {
    forall i :: 0 <= i < |es| ==> EventFits(es[i])
  }

  /** Largest count the feed can reach: the last full page below MaxProducts, plus one page. */
  const LoadBound: int := 25

  /**
   * The invariant of every state a session reaches. The loaded count is the length of the
   * feed and never passes LoadBound; while the feed has more, every page requested so far
   * came back full, so the next window starts right after the last loaded row.
   */
  ghost predicate Inv(s: FeedState)
    ensures Inv(s) ==> s.total < MaxProducts + PageSize
    ensures Inv(s) && s.total >= MaxProducts ==> !s.hasMore
  {
    s.total == |s.products| && s.page >= 1 && |s.products| <= PageSize * s.page &&
    s.total <= LoadBound &&
    (s.loading ==> s.products == [] && s.page == 1 && s.hasMore && !s.loadingMore) &&
    (s.loadingMore ==> s.hasMore && s.products != [] && !s.loading) &&
    (s.hasMore && !s.loading && s.products != [] ==>
       |s.products| == PageSize * s.page && s.total < MaxProducts)
  }
}

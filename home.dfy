/**
 * The Home page component's state and the handlers that update it, with every reply
 * of the backend handed in as an argument. Each handler is specified by the transition
 * functions of module Feed and keeps Valid: the feed invariant, and an overlay flag equal
 * to the overlay rule of its inputs.
 */
module HomePage {
  import opened Wrappers
  import opened Countdown
  import opened Feed
  import opened Overlay
  import opened Saved
  import opened ReleaseTimes

  class Home {
    var products: seq<Product>
    var page: int
    var totalProductsLoaded: int
    var hasMore: bool
    var loading: bool
    var loadingMore: bool
    var savedProducts: set<int>
    var productReleaseTimes: map<int, Remaining>
    var isAuthenticated: bool
    var showCtaOverlay: bool
    var currentTime: int
    var nextReleaseTime: Option<int>

    /** The feed fields as a value. */
    ghost function FeedView(): FeedState
      reads this
    {
      FeedState(products, page, totalProductsLoaded, hasMore, loading, loadingMore)
    }

    ghost predicate Valid()
      reads this
    {
      Inv(FeedView()) && showCtaOverlay == OverlayShown(totalProductsLoaded, isAuthenticated)
    }

    /** The state when the page mounts at instant `now`. */
    constructor (now: int)
      ensures Valid() && FeedView() == Initial()
      ensures savedProducts == {} && productReleaseTimes == map[]
      ensures !isAuthenticated && !showCtaOverlay
      ensures currentTime == now && nextReleaseTime == None
    {
      products := [];
      savedProducts := {};
      loading := true;
      loadingMore := false;
      hasMore := true;
      page := 1;
      currentTime := now;
      nextReleaseTime := None;
      isAuthenticated := false;
      totalProductsLoaded := 0;
      showCtaOverlay := false;
      productReleaseTimes := map[];
    }

    /**
     * The authentication check once the user lookup has answered, followed by the overlay
     * effect it triggers: a signed-in user never sees the overlay.
     */
    method CheckAuth(signedIn: bool)
      requires Valid()
      modifies this`isAuthenticated, this`showCtaOverlay
      ensures Valid() && isAuthenticated == signedIn
      ensures signedIn ==> !showCtaOverlay
    {
      isAuthenticated := signedIn;
      if signedIn {
        showCtaOverlay := false;
      } else {
        showCtaOverlay := totalProductsLoaded >= CtaThreshold && !isAuthenticated;
      }
    }

    /**
     * fetchProducts once its queries have answered: `resp` for the first window, `signedIn`
     * for the user lookup and `savedIds` for the saved-products lookup (None when it failed
     * or returned null). It runs once, at mount, while `loading` is still set.
     */
    method FetchProducts(resp: Response, signedIn: bool, savedIds: Option<seq<int>>, now: int)
      requires Valid() && loading && FitsPage(resp)
      modifies this`products, this`totalProductsLoaded, this`hasMore, this`loading,
        this`savedProducts, this`productReleaseTimes
      ensures Valid() && FeedView() == FirstPage(old(FeedView()), resp)
      ensures savedProducts ==
        if !resp.QueryError? && signedIn && savedIds.Some?
        then set id | id in savedIds.value
        else old(savedProducts)
      ensures productReleaseTimes ==
        if resp.Rows? then Countdowns(map[], resp.rows, now) else old(productReleaseTimes)
    {
      loading := true;
      if resp.QueryError? {
        loading := false;
        return;
      }
      if signedIn && savedIds.Some? {
        savedProducts := set id | id in savedIds.value;
      }
      if resp.Rows? {
        productReleaseTimes := FillCountdowns(map[], resp.rows, now);
        products := resp.rows;
        totalProductsLoaded := |resp.rows|;
        hasMore := |resp.rows| == PageSize;
      } else {
        products := [];
        totalProductsLoaded := 0;
        hasMore := false;
      }
      loading := false;
    }

    /**
     * The first part of loadMoreProducts, up to its query: the in-flight guard, then the
     * window of the next page. Its only caller, the sentinel's observer, calls it while the
     * feed has rows and more to load and the first page is in.
     */
    method LoadMoreProducts() returns (request: Option<Window>)
      requires Valid() && hasMore && products != [] && !loading
      modifies this`loadingMore
      ensures Valid() && FeedView() == Start(old(FeedView())) && request == Request(old(FeedView()))
    {
      if loadingMore {
        return None;
      }
      loadingMore := true;
      var nextPage := page + 1;
      var start := nextPage * PageSize - PageSize;
      var end := nextPage * PageSize - 1;
      request := Some(Window(start, end));
    }

    /**
     * The rest of loadMoreProducts once its query has answered with `resp`: new rows are
     * appended and their countdowns merged into the map; the overlay is raised at 20 rows
     * for a visitor who is not signed in; the in-flight flag is cleared on every outcome.
     */
    method ReceiveMoreProducts(resp: Response, now: int)
      requires Valid() && loadingMore && FitsPage(resp)
      modifies this`products, this`page, this`totalProductsLoaded, this`hasMore,
        this`loadingMore, this`productReleaseTimes, this`showCtaOverlay
      ensures Valid() && FeedView() == Finish(old(FeedView()), resp)
      ensures productReleaseTimes ==
        if resp.Rows? && resp.rows != []
        then Countdowns(old(productReleaseTimes), resp.rows, now)
        else old(productReleaseTimes)
    {
      if resp.QueryError? {
        loadingMore := false;
        return;
      }
      if resp.Rows? && |resp.rows| > 0 {
        var data := resp.rows;
        productReleaseTimes := FillCountdowns(productReleaseTimes, data, now);
        var newTotalLoaded := totalProductsLoaded + |data|;
        totalProductsLoaded := newTotalLoaded;
        products := products + data;
        page := page + 1;
        if newTotalLoaded >= CtaThreshold && !isAuthenticated {
          showCtaOverlay := true;
        }
        hasMore := |data| == PageSize && newTotalLoaded < MaxProducts;
      } else {
        hasMore := false;
      }
      loadingMore := false;
    }

    /**
     * The sentinel (the last rendered product) entering the viewport: a load starts only
     * when the feed has rows and more to load and nothing is loading.
     */
    method SentinelVisible(visible: bool) returns (request: Option<Window>)
      requires Valid()
      modifies this`loadingMore
      ensures Valid()
      ensures FeedView() == if ShouldLoad(old(FeedView()), visible) then Start(old(FeedView())) else old(FeedView())
      ensures request.Some? <==> ShouldLoad(old(FeedView()), visible)
      ensures request.Some? ==>
        request.value == Window(|products|, |products| + PageSize - 1)
    {
      if visible && products != [] && hasMore && !loading && !loadingMore {
        request := LoadMoreProducts();
      } else {
        request := None;
      }
    }

    /**
     * toggleSaveProduct once the user lookup (`signedIn`) and the delete or insert
     * (`remoteOk`) have answered; returns what it asked of the outside.
     */
    method ToggleSaveProduct(productId: int, signedIn: bool, remoteOk: bool) returns (call: SaveCall)
      requires Valid()
      modifies this`savedProducts
      ensures Valid()
      ensures call == SaveCallFor(old(savedProducts), productId, signedIn)
      ensures savedProducts == Toggle(old(savedProducts), productId, signedIn, remoteOk)
    {
      if !signedIn {
        return RedirectToLogin;
      }
      if productId in savedProducts {
        call := DeleteRow(productId);
        if remoteOk {
          var newSet := savedProducts;
          newSet := newSet - {productId};
          savedProducts := newSet;
        }
      } else {
        call := InsertRow(productId);
        if remoteOk {
          savedProducts := savedProducts + {productId};
        }
      }
    }

    /**
     * The per-second tick of the product countdowns: the map is rebuilt from nothing, so
     * its keys are exactly the ids of the loaded products still to be released.
     */
    method Tick(now: int)
      requires Valid()
      modifies this`currentTime, this`productReleaseTimes
      ensures Valid()
      ensures currentTime == now && productReleaseTimes == Countdowns(map[], products, now)
      ensures productReleaseTimes.Keys == UpcomingIds(products, now)
    {
      currentTime := now;
      productReleaseTimes := FillCountdowns(map[], products, now);
      TickKeys(products, now);
    }

    /**
     * The per-second tick of the next-release countdown: it asks for the next release
     * whenever the countdown has reached or passed zero, on every such tick, not once.
     */
    method ReleaseTick(now: int) returns (refetch: bool)
      requires Valid()
      modifies this`currentTime
      ensures Valid()
      ensures currentTime == now
      ensures refetch <==> nextReleaseTime.Some? && nextReleaseTime.value - now <= 0
    {
      currentTime := now;
      refetch := false;
      if nextReleaseTime.Some? {
        var difference := nextReleaseTime.value - now;
        if difference <= 0 {
          refetch := true;
        }
      }
    }

    /** The next release time once fetchNextRelease has answered. */
    method ReceiveNextRelease(target: int)
      requires Valid()
      modifies this`nextReleaseTime
      ensures Valid()
      ensures nextReleaseTime == Some(target)
    {
      nextReleaseTime := Some(target);
    }
  }
}

/**
 * What holds across a whole session of the feed: the invariant, append-only growth,
 * aligned page windows, exhaustion, the real bound on the loaded count, and, when the
 * replies come from a fixed product table, that the feed is a gap-free prefix of it.
 */
module FeedSession {
  import opened Wrappers
  import opened Feed

  lemma StepInv(s: FeedState, e: Event)
    requires Inv(s) && EventFits(e)
    ensures Inv(Step(s, e))
  {
  }

  lemma {:induction false} RunInv(s: FeedState, es: seq<Event>)
    requires Inv(s) && AllFit(es)
    ensures Inv(Run(s, es))
    decreases |es|
  {
    if es != [] {
      StepInv(s, es[0]);
      assert AllFit(es[1..]) by {
        forall i | 0 <= i < |es[1..]| ensures EventFits(es[1..][i]) {
          assert es[1..][i] == es[i + 1];
        }
      }
      RunInv(Step(s, es[0]), es[1..]);
    }
  }

  /**
   * Every state a session reaches from mount keeps the loaded count equal to the length of
   * the feed. The limit of 22 is soft: the count can pass it, but never LoadBound (25),
   * so it stays below MaxProducts + PageSize; and from 22 on no more is loaded.
   */
  lemma SessionBounds(es: seq<Event>)
    requires AllFit(es)
    ensures var s := Run(Initial(), es);
      s.total == |s.products| && s.total <= LoadBound && s.total < MaxProducts + PageSize &&
      (s.total >= MaxProducts ==> !s.hasMore)
  {
    RunInv(Initial(), es);
  }

  /** A load started by the sentinel asks for the five rows right after those loaded. */
  lemma LoadWindowFollowsFeed(s: FeedState)
    requires Inv(s) && ShouldLoad(s, true)
    ensures Request(s) == Some(Window(|s.products|, |s.products| + PageSize - 1))
  {
  }

  /** The first window and each next one meet without a gap or an overlap. */
  lemma WindowsAdjacent(page: int)
    requires page >= 1
    ensures FirstWindow().end + 1 == NextWindow(1).start
    ensures NextWindow(page).end + 1 == NextWindow(page + 1).start
  {
  }

  /** Once the feed has no more (after the first page), no event changes it or starts a load. */
  lemma {:induction false} ExhaustedIsFinal(s: FeedState, es: seq<Event>)
    requires Inv(s) && !s.hasMore
    ensures Run(s, es) == s && LoadsStarted(s, es) == 0
    decreases |es|
  {
    if es != [] {
      assert Step(s, es[0]) == s;
      ExhaustedIsFinal(s, es[1..]);
    }
  }

  /** While a load is in flight the sentinel firing again issues no second request. */
  lemma OneRequestInFlight(s: FeedState)
    ensures Run(s, [SentinelVisible, SentinelVisible]) == Run(s, [SentinelVisible])
    ensures LoadsStarted(s, [SentinelVisible, SentinelVisible]) == LoadsStarted(s, [SentinelVisible])
    ensures LoadsStarted(s, [SentinelVisible]) == (if ShouldLoad(s, true) then 1 else 0)
  {
  }

  /** The feed only grows at its end: what was loaded stays, in place. */
  lemma {:induction false} AppendOnly(s: FeedState, es: seq<Event>)
    requires Inv(s) && AllFit(es)
    ensures var r := Run(s, es);
      |s.products| <= |r.products| && r.products[..|s.products|] == s.products &&
      s.total <= r.total
    decreases |es|
  {
    if es != [] {
      var s1 := Step(s, es[0]);
      StepInv(s, es[0]);
      assert |s.products| <= |s1.products| && s1.products[..|s.products|] == s.products;
      assert AllFit(es[1..]) by {
        forall i | 0 <= i < |es[1..]| ensures EventFits(es[1..][i]) {
          assert es[1..][i] == es[i + 1];
        }
      }
      AppendOnly(s1, es[1..]);
      var r := Run(s1, es[1..]);
      assert r.products[..|s.products|] == r.products[..|s1.products|][..|s.products|];
    }
  }

  function Min(a: int, b: int): int {
    if a <= b then a else b
  }

  /** A products table answering `range(start, end)`: the rows of the window it holds. */
  function Serve(db: seq<Product>, w: Window): (r: Response)
    ensures r.Rows? && |r.rows| <= |db| && (w.end - w.start + 1 == PageSize ==> FitsPage(r))
  {
    var lo := if w.start < 0 then 0 else Min(w.start, |db|);
    var hi := if w.end + 1 < lo then lo else Min(w.end + 1, |db|);
    Rows(db[lo..hi])
  }

  /** Replies that come from `db` for the window actually waiting, or are errors. */
  predicate Honest(db: seq<Product>, s: FeedState, e: Event) {
    EventFits(e) &&
    match e
    case FirstReply(resp) => s.loading ==> resp == Serve(db, FirstWindow()) || resp.QueryError?
    case SentinelVisible => true
    case MoreReply(resp) => s.loadingMore ==> resp == Serve(db, NextWindow(s.page)) || resp.QueryError?
  }

  predicate HonestRun(db: seq<Product>, s: FeedState, es: seq<Event>)
    decreases |es|
  {
    es == [] || (Honest(db, s, es[0]) && HonestRun(db, Step(s, es[0]), es[1..]))
  }

  /** The feed is the first rows of `db`, in order. */
  predicate PrefixOf(db: seq<Product>, s: FeedState) {
    |s.products| <= |db| && s.products == db[..|s.products|]
  }

  lemma HonestStep(db: seq<Product>, s: FeedState, e: Event)
    requires Inv(s) && PrefixOf(db, s) && Honest(db, s, e)
    ensures Inv(Step(s, e)) && PrefixOf(db, Step(s, e))
  {
  }

  /**
   * With replies from a fixed table, the feed is always a prefix of it: no row is skipped
   * and none is loaded twice.
   */
  lemma {:induction false} HonestRunIsPrefix(db: seq<Product>, s: FeedState, es: seq<Event>)
    requires Inv(s) && PrefixOf(db, s) && HonestRun(db, s, es)
    ensures Inv(Run(s, es)) && PrefixOf(db, Run(s, es))
    decreases |es|
  {
    if es != [] {
      HonestStep(db, s, es[0]);
      HonestRunIsPrefix(db, Step(s, es[0]), es[1..]);
    }
  }

  lemma {:induction false} RunAppend(s: FeedState, a: seq<Event>, b: seq<Event>)
    ensures Run(s, a + b) == Run(Run(s, a), b)
    ensures LoadsStarted(s, a + b) == LoadsStarted(s, a) + LoadsStarted(Run(s, a), b)
    decreases |a|
  {
    if a != [] {
      assert a + b != [];
      assert (a + b)[0] == a[0];
      assert (a + b)[1..] == a[1..] + b;
      RunAppend(Step(s, a[0]), a[1..], b);
    } else {
      assert a + b == b;
    }
  }

  /** The reply to the first query, with the table as the source. */
  lemma FirstRound(db: seq<Product>)
    ensures var r := Run(Initial(), [FirstReply(Serve(db, FirstWindow()))]);
      Inv(r) && r.products == db[..Min(PageSize, |db|)] && r.page == 1 &&
      (r.hasMore <==> |db| >= PageSize)
  {
  }

  /**
   * One scroll to the sentinel and the table's reply: the next rows of the table are
   * appended, and the feed has more exactly when a full page came back below the limit.
   */
  lemma LoadRound(db: seq<Product>, s: FeedState)
    requires Inv(s) && PrefixOf(db, s) && ShouldLoad(s, true)
    ensures var r := Run(s, [SentinelVisible, MoreReply(Serve(db, NextWindow(s.page)))]);
      Inv(r) && !r.loading && !r.loadingMore &&
      r.products == db[..Min(|s.products| + PageSize, |db|)] &&
      r.page == (if |db| > |s.products| then s.page + 1 else s.page) &&
      (r.hasMore <==> |s.products| + PageSize <= |db| && |s.products| + PageSize < MaxProducts) &&
      LoadsStarted(s, [SentinelVisible, MoreReply(Serve(db, NextWindow(s.page)))]) == 1
  {
    var reply := MoreReply(Serve(db, NextWindow(s.page)));
    var s1 := Step(s, SentinelVisible);
    var s2 := Step(s1, reply);
    assert [SentinelVisible, reply][1..] == [reply];
    assert Run(s, [SentinelVisible, reply]) == Run(s1, [reply]);
    assert Run(s1, [reply]) == Run(s2, []);
    assert LoadsStarted(s, [SentinelVisible, reply]) == 1 + LoadsStarted(s1, [reply]);
    assert LoadsStarted(s1, [reply]) == 0 + LoadsStarted(s2, []);
    HonestStep(db, s, SentinelVisible);
    HonestStep(db, s1, reply);
    var n := |s.products|;
    assert n == PageSize * s.page;
  }

  /** The scrolls of a session: the first reply, then `loads` sentinel hits each answered. */
  function Session(db: seq<Product>, loads: nat): seq<Event>
    decreases loads
  {
    if loads == 0 then [FirstReply(Serve(db, FirstWindow()))]
    else Session(db, loads - 1) + [SentinelVisible, MoreReply(Serve(db, NextWindow(loads)))]
  }

  lemma {:induction false} FullPages(db: seq<Product>, loads: nat)
    requires (loads + 1) * PageSize <= |db| && loads * PageSize < MaxProducts
    ensures var s := Run(Initial(), Session(db, loads));
      Inv(s) && !s.loading && !s.loadingMore &&
      s.products == db[..(loads + 1) * PageSize] && s.page == loads + 1 &&
      s.hasMore == ((loads + 1) * PageSize < MaxProducts) &&
      LoadsStarted(Initial(), Session(db, loads)) == loads
    decreases loads
  {
    if loads == 0 {
      FirstRound(db);
      assert Serve(db, FirstWindow()) == Rows(db[..PageSize]);
    } else {
      FullPages(db, loads - 1);
      var s := Run(Initial(), Session(db, loads - 1));
      LoadRound(db, s);
      RunAppend(Initial(), Session(db, loads - 1),
        [SentinelVisible, MoreReply(Serve(db, NextWindow(loads)))]);
    }
  }

  /**
   * A table of exactly 22 rows: the first page and four loads bring 5, 10, 15, 20 and 22
   * rows; then the feed is the whole table, has no more, and nothing starts another load.
   */
  lemma TwentyTwoRowTable(db: seq<Product>, more: seq<Event>)
    requires |db| == 22
    ensures var s := Run(Initial(), Session(db, 4));
      s.products == db && s.total == 22 && !s.hasMore &&
      LoadsStarted(Initial(), Session(db, 4)) == 4 &&
      Run(s, more) == s && LoadsStarted(s, more) == 0
  {
    FullPages(db, 3);
    var s3 := Run(Initial(), Session(db, 3));
    assert |s3.products| == 20 && s3.page == 4 && s3.hasMore;
    var last := [SentinelVisible, MoreReply(Serve(db, NextWindow(4)))];
    LoadRound(db, s3);
    assert Min(|s3.products| + PageSize, |db|) == 22;
    RunAppend(Initial(), Session(db, 3), last);
    assert Session(db, 4) == Session(db, 3) + last;
    var s := Run(Initial(), Session(db, 4));
    assert db[..22] == db;
    ExhaustedIsFinal(s, more);
  }

  /**
   * The limit of 22 is not a hard cap: with at least 25 rows in the table, 20 loaded rows
   * still leave `hasMore` set, and the next full page brings the feed to 25.
   */
  lemma SoftCapReaches25(db: seq<Product>)
    requires |db| >= 25
    ensures var s := Run(Initial(), Session(db, 4));
      s.total == LoadBound && s.total > MaxProducts && !s.hasMore
  {
    FullPages(db, 3);
    var s3 := Run(Initial(), Session(db, 3));
    assert |s3.products| == 20 && s3.page == 4 && s3.hasMore;
    var last := [SentinelVisible, MoreReply(Serve(db, NextWindow(4)))];
    LoadRound(db, s3);
    var s4 := Run(s3, last);
    assert Min(|s3.products| + PageSize, |db|) == 25;
    assert |s4.products| == 25;
    RunAppend(Initial(), Session(db, 3), last);
    assert Session(db, 4) == Session(db, 3) + last;
  }
}

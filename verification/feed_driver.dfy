/**
 * `fetch_ios_reviews` (app.py) as the loops it is: countries, sort orders,
 * pages and entries, each leaving early once the target is reached, and
 * each proved to compute what the matching function of `FeedSpec` says.
 * The ghost `Session` follows the loops and records the requests made and
 * where each review came from; the real state is the list of reviews, the
 * set of ids seen and the calls made to the progress callback.
 */
module FeedDriver {
  import opened Wrappers
  import opened Records
  import opened FeedSpec

  /**
   * The loop over `entries[1:]` of one page, for the page at `cur` of
   * `country`. Returns the new list, id set and progress calls, and whether
   * reading an entry raised (which ends the page).
   */
  method ScanPage(entries: seq<FeedEntry>, ghost cur: Cursor, country: string, target: int,
                  reviews0: seq<Review>, seen0: set<string>, progress0: seq<(int, int)>, ghost st0: Session)
    returns (reviews: seq<Review>, seen: set<string>, progress: seq<(int, int)>, raised: bool, ghost st: Session)
    requires ValidCursor(cur) && country == Countries[cur.countryIndex] && 1 <= |entries|
    requires st0.reviews == reviews0 && st0.seen == seen0 && progress0 == ProgressTrace(|reviews0|, target)
    ensures (st, raised) == ScanEntries(entries, cur, 1, st0, target)
    ensures st.reviews == reviews && st.seen == seen && progress == ProgressTrace(|reviews|, target)
  {
    reviews, seen, progress, st := reviews0, seen0, progress0, st0;
    raised := false;
    var k := 1;
    while k < |entries|
      invariant 1 <= k <= |entries|
      invariant st.reviews == reviews && st.seen == seen && progress == ProgressTrace(|reviews|, target)
      invariant ScanEntries(entries, cur, k, st, target) == ScanEntries(entries, cur, 1, st0, target)
    {
      var e := entries[k];
      if e.id.Some? {
        if e.id.value in seen {
          k := k + 1;
          continue;
        }
        seen := seen + {e.id.value};
      }
      var built := BuildReview(e, country);
      if built.None? {
        raised := true;
        st := st.(seen := seen);
        break;
      }
      reviews := reviews + [built.value];
      progress := progress + [(|reviews|, target)];
      st := st.(reviews := reviews, seen := seen, origins := st.origins + [Origin(cur, k)]);
      if |reviews| >= target {
        break;
      }
      k := k + 1;
    }
  }

  /**
   * The loop over pages 1 to 10 of one country and sort order, left at the
   * first page that fails, has at most one entry, or raises.
   */
  method ScanPages(feed: Feed, ci: nat, si: nat, target: int,
                   reviews0: seq<Review>, seen0: set<string>, progress0: seq<(int, int)>, ghost st0: Session)
    returns (reviews: seq<Review>, seen: set<string>, progress: seq<(int, int)>, ghost st: Session)
    requires ci < |Countries| && si < |SortOrders|
    requires st0.reviews == reviews0 && st0.seen == seen0 && progress0 == ProgressTrace(|reviews0|, target)
    ensures st == RunPages(feed, ci, si, 1, st0, target)
    ensures st.reviews == reviews && st.seen == seen && progress == ProgressTrace(|reviews|, target)
  {
    reviews, seen, progress, st := reviews0, seen0, progress0, st0;
    var page := 1;
    while page <= LastPage
      invariant 1 <= page <= LastPage + 1
      invariant st.reviews == reviews && st.seen == seen && progress == ProgressTrace(|reviews|, target)
      invariant RunPages(feed, ci, si, page, st, target) == RunPages(feed, ci, si, 1, st0, target)
    {
      if |reviews| >= target {
        break;
      }
      ghost var cur := Cursor(ci, si, page);
      var fetched := feed(Countries[ci], SortOrders[si], page);
      if fetched.None? {
        st := st.(requests := st.requests + [Request(cur, Failed)]);
        break;
      }
      var entries := fetched.value;
      if |entries| <= 1 {
        st := st.(requests := st.requests + [Request(cur, TooShort)]);
        break;
      }
      var raised;
      ghost var scanned;
      reviews, seen, progress, raised, scanned :=
        ScanPage(entries, cur, Countries[ci], target, reviews, seen, progress,
                 st.(requests := st.requests + [Request(cur, Scanned)]));
      if raised {
        st := scanned.(requests := st.requests + [Request(cur, Raised)]);
        break;
      }
      st := scanned;
      page := page + 1;
    }
  }

  /**
   * Collects up to `target` reviews from the feed; `progress` is the
   * sequence of calls made to the progress callback.
   */
  method FetchIosReviews(feed: Feed, target: int) returns (reviews: seq<Review>, progress: seq<(int, int)>)
    ensures reviews == Collect(feed, target).reviews
    ensures progress == ProgressTrace(|reviews|, target)
  {
    var allReviews: seq<Review> := [];
    var seenIds: set<string> := {};
    progress := [];
    ghost var st := Start;
    var ci := 0;
    while ci < |Countries|
      invariant 0 <= ci <= |Countries|
      invariant st.reviews == allReviews && st.seen == seenIds && progress == ProgressTrace(|allReviews|, target)
      invariant RunCountries(feed, ci, st, target) == Collect(feed, target)
    {
      if |allReviews| >= target {
        break;
      }
      ghost var stC := st;
      var si := 0;
      while si < |SortOrders|
        invariant 0 <= si <= |SortOrders|
        invariant st.reviews == allReviews && st.seen == seenIds && progress == ProgressTrace(|allReviews|, target)
        invariant RunSorts(feed, ci, si, st, target) == RunSorts(feed, ci, 0, stC, target)
      {
        if |allReviews| >= target {
          break;
        }
        allReviews, seenIds, progress, st := ScanPages(feed, ci, si, target, allReviews, seenIds, progress, st);
        si := si + 1;
      }
      ci := ci + 1;
    }
    CollectWithinTarget(feed, target);
    reviews := PyPrefix(allReviews, target);
  }
}

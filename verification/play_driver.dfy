/**
 * `fetch_android_reviews` (app.py) as its `while` loop over batches and
 * `for` loop over the reviews of a batch, proved to compute `FetchAndroid`.
 */
module PlayDriver {
  import opened Wrappers
  import opened Records
  import opened PlaySpec

  /**
   * Collects up to `target` reviews of `package`. `available` says whether
   * the scraper library can be imported. Returns the list, the calls made
   * to the progress callback, whether an error message was shown, and (as
   * a ghost) the calls made to the library.
   */
  method FetchAndroidReviews(scraper: Scraper, available: bool, package: string, target: int)
    returns (reviews: seq<Review>, progress: seq<(int, int)>, errorShown: bool, ghost queries: seq<Query>)
    ensures reviews == FetchAndroid(scraper, available, package, target).reviews
    ensures progress == ProgressTrace(FetchAndroid(scraper, available, package, target).appended, target)
    ensures errorShown == FetchAndroid(scraper, available, package, target).failed
    ensures queries == FetchAndroid(scraper, available, package, target).queries
  {
    progress := [];
    queries := [];
    if !available {
      return [], progress, true, queries;
    }
    var allReviews: seq<Review> := [];
    var token: Option<Token> := None;
    while |allReviews| < target
      invariant |allReviews| <= if target < 0 then 0 else target
      invariant progress == ProgressTrace(|allReviews|, target)
      invariant Crawl(scraper, package, target, allReviews, token, queries) == FetchAndroid(scraper, available, package, target)
      decreases target - |allReviews|
    {
      var batchSize := Min(BatchLimit, target - |allReviews|);
      var query := Query(package, "ko", "kr", Newest, batchSize, token);
      var reply := scraper(query);
      queries := queries + [query];
      if reply.Raised? {
        return [], progress, true, queries;
      }
      var result := reply.items;
      token := reply.next;
      if result == [] {
        break;
      }
      allReviews, progress := AppendBatch(allReviews, progress, result, target);
      if token.None? {
        break;
      }
    }
    PyPrefixNoOp(allReviews, target);
    reviews := PyPrefix(allReviews, target);
    errorShown := false;
  }

  /**
   * The inner loop: converts the reviews of one batch and appends them,
   * reporting progress after each, until the target is reached.
   */
  method AppendBatch(reviews0: seq<Review>, progress0: seq<(int, int)>, result: seq<RawReview>, target: int)
    returns (reviews: seq<Review>, progress: seq<(int, int)>)
    requires |reviews0| < target
    requires progress0 == ProgressTrace(|reviews0|, target)
    ensures reviews == reviews0 + Converted(result)[..Min(|result|, target - |reviews0|)]
    ensures |reviews| <= target
    ensures progress == ProgressTrace(|reviews|, target)
  {
    reviews, progress := reviews0, progress0;
    var i := 0;
    while i < |result|
      invariant 0 <= i <= |result|
      invariant reviews == reviews0 + Converted(result)[..i] && |reviews| < target
      invariant progress == ProgressTrace(|reviews|, target)
    {
      var review := BuildAndroid(result[i]);
      assert Converted(result)[..i + 1] == Converted(result)[..i] + [review];
      reviews := reviews + [review];
      progress := progress + [(|reviews|, target)];
      if |reviews| >= target {
        return;
      }
      i := i + 1;
    }
  }
}

/**
 * The review record both collectors produce and the reporting code reads,
 * and two small pieces of Python the collectors share.
 */
module Records {
  import opened Wrappers

  /**
   * A collected review. The source keeps a dictionary per review; a key
   * that the collector does not set is `None` here (the Play Store
   * collector sets neither `title` nor `country`).
   */
  datatype Review = Review(
    title: Option<string>,
    content: Option<string>,
    author: Option<string>,
    rating: Option<int>,
    date: Option<string>,
    country: Option<string>)

  /** The author recorded when the store names none. */
  const Anonymous: string := "익명"

  /** `review.get('rating', 0)`: the rating, or 0 when the review has none. */
  function RatingOf(r: Review): int {
    r.rating.GetOr(0)
  }

  /** What the progress callback has received after `n` appends: `(1, target)`, ..., `(n, target)`. */
  function ProgressTrace(n: nat, target: int): (t: seq<(int, int)>)
    ensures |t| == n
    ensures forall i :: 0 <= i < n ==> t[i] == (i + 1, target)
  {
    if n == 0 then [] else ProgressTrace(n - 1, target) + [(n, target)]
  }

  /** Python's `s[:n]`, where a negative `n` counts from the end. */
  function PyPrefix<T>(s: seq<T>, n: int): (r: seq<T>)
    ensures r <= s
    ensures n >= 0 ==> |r| == (if n < |s| then n else |s|)
    ensures n < 0 ==> |r| == (if |s| + n > 0 then |s| + n else 0)
  {
    if n >= 0 then s[..if n < |s| then n else |s|]
    else s[..if |s| + n > 0 then |s| + n else 0]
  }

  /** Slicing to `n` is a no-op on a list that never grew past `n` (and is empty when `n` is negative). */
  lemma PyPrefixNoOp<T>(s: seq<T>, n: int)
    requires |s| <= (if n < 0 then 0 else n)
    ensures PyPrefix(s, n) == s
  {
  }
}

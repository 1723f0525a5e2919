/**
 * The preview on the result page (app.py): the collected reviews filtered
 * by an exact rating, optionally sorted by rating, and cut to the first 50.
 */
module Preview {
  import opened Wrappers
  import opened Chars
  import opened Records

  /** The choices of the rating filter, in the order the page lists them. */
  const RatingLabels: seq<string> := ["전체", "5점", "4점", "3점", "2점", "1점"]

  /** The choices of the sort order; the first keeps the collection order. */
  const SortLabels: seq<string> := ["최신순", "평점 높은순", "평점 낮은순"]

  /** The most reviews the preview shows. */
  const PreviewLimit: nat := 50

  /** The rating a filter choice selects: none for "전체", else the digit the choice starts with. */
  function ChosenRating(choice: string): (r: Option<int>)
    requires choice in RatingLabels
    ensures r.None? <==> choice == "전체"
    ensures r.Some? ==> 1 <= r.value <= 5 && IsDigit(choice[0]) && r.value == DigitValue(choice[0])
  {
    if choice == "전체" then None else Some(DigitValue(choice[0]))
  }

  /** The five star choices select 5, 4, 3, 2 and 1, in that order. */
  lemma RatingLabelsDescend()
    ensures forall i :: 1 <= i < |RatingLabels| ==> ChosenRating(RatingLabels[i]) == Some(6 - i)
  {
    assert ChosenRating(RatingLabels[1]) == Some(5);
    assert ChosenRating(RatingLabels[2]) == Some(4);
    assert ChosenRating(RatingLabels[3]) == Some(3);
    assert ChosenRating(RatingLabels[4]) == Some(2);
    assert ChosenRating(RatingLabels[5]) == Some(1);
  }

  // ---------------------------------------------------------------------
  // Filtering

  /** The reviews whose rating is exactly `stars`, in their original order; a review without a rating never matches. */
  function WithRating(reviews: seq<Review>, stars: int): (r: seq<Review>)
    ensures |r| <= |reviews|
    ensures forall i :: 0 <= i < |r| ==> r[i].rating == Some(stars)
    ensures multiset(r) <= multiset(reviews)
  {
    if reviews == [] then []
    else
      assert reviews == [reviews[0]] + reviews[1..];
      (if reviews[0].rating == Some(stars) then [reviews[0]] else []) + WithRating(reviews[1..], stars)
  }

  /** Filtering a concatenation filters each part: the kept reviews stay in their original order. */
  lemma {:induction false} WithRatingAppend(a: seq<Review>, b: seq<Review>, stars: int)
    ensures WithRating(a + b, stars) == WithRating(a, stars) + WithRating(b, stars)
  {
    if a == [] {
      assert a + b == b;
    } else {
      assert (a + b)[1..] == a[1..] + b;
      WithRatingAppend(a[1..], b, stars);
    }
  }

  /** A review is kept exactly when it is among the reviews and has the chosen rating. */
  lemma {:induction false} WithRatingKeeps(reviews: seq<Review>, stars: int, x: Review)
    ensures x in WithRating(reviews, stars) <==> x in reviews && x.rating == Some(stars)
  {
    if reviews != [] {
      WithRatingKeeps(reviews[1..], stars, x);
      assert reviews == [reviews[0]] + reviews[1..];
    }
  }

  /** Every review with the chosen rating is kept as often as it occurs. */
  lemma {:induction false} WithRatingCount(reviews: seq<Review>, stars: int, x: Review)
    requires x.rating == Some(stars)
    ensures multiset(WithRating(reviews, stars))[x] == multiset(reviews)[x]
  {
    if reviews != [] {
      WithRatingCount(reviews[1..], stars, x);
      assert reviews == [reviews[0]] + reviews[1..];
    }
  }

  /** The filter of the page: everything for "전체", else the reviews with the chosen rating. */
  function Filtered(reviews: seq<Review>, choice: string): (r: seq<Review>)
    requires choice in RatingLabels
    ensures choice == "전체" ==> r == reviews
    ensures ChosenRating(choice).Some? ==> r == WithRating(reviews, ChosenRating(choice).value)
  {
    match ChosenRating(choice)
    case None => reviews
    case Some(stars) => WithRating(reviews, stars)
  }

  /** The rating a choice lets through: any for "전체", else exactly the chosen one (a missing rating never equals it). */
  predicate Passes(x: Review, choice: string)
    requires choice in RatingLabels
  {
    ChosenRating(choice).None? || x.rating == ChosenRating(choice)
  }

  /**
   * The filter keeps exactly the reviews that pass, each as often as it
   * occurs, in their original order.
   */
  lemma FilteredKeeps(reviews: seq<Review>, choice: string)
    requires choice in RatingLabels
    ensures forall x :: x in Filtered(reviews, choice) <==> x in reviews && Passes(x, choice)
    ensures forall x :: Passes(x, choice) ==> multiset(Filtered(reviews, choice))[x] == multiset(reviews)[x]
    ensures multiset(Filtered(reviews, choice)) <= multiset(reviews)
    ensures forall a, b :: reviews == a + b ==> Filtered(reviews, choice) == Filtered(a, choice) + Filtered(b, choice)
  {
    match ChosenRating(choice)
    case None =>
    case Some(stars) =>
      forall x: Review ensures x in WithRating(reviews, stars) <==> x in reviews && x.rating == Some(stars) {
        WithRatingKeeps(reviews, stars, x);
      }
      forall x: Review | x.rating == Some(stars) ensures multiset(WithRating(reviews, stars))[x] == multiset(reviews)[x] {
        WithRatingCount(reviews, stars, x);
      }
      forall a: seq<Review>, b: seq<Review> | reviews == a + b ensures WithRating(reviews, stars) == WithRating(a, stars) + WithRating(b, stars) {
        WithRatingAppend(a, b, stars);
      }
  }

  // ---------------------------------------------------------------------
  // Sorting

  /** Whether rating `a` may stand before rating `b`: not after it, high first when `descending`. */
  predicate InOrder(a: int, b: int, descending: bool) {
    if descending then a >= b else a <= b
  }

  /** Ordered by rating, pair by pair. */
  predicate SortedBy(s: seq<Review>, descending: bool) {
    forall i, j :: 0 <= i < j < |s| ==> InOrder(RatingOf(s[i]), RatingOf(s[j]), descending)
  }

  /** The reviews of `s` whose rating (0 when missing) is `k`, in order. */
  function RatedAs(s: seq<Review>, k: int): (r: seq<Review>)
    ensures |r| <= |s|
  {
    if s == [] then [] else (if RatingOf(s[0]) == k then [s[0]] else []) + RatedAs(s[1..], k)
  }

  /**
   * `x` placed before the first review it does not come after, so it goes
   * ahead of the reviews with its own rating.
   */
  function Insert(x: Review, s: seq<Review>, descending: bool): (r: seq<Review>)
    ensures |r| == |s| + 1
    ensures multiset(r) == multiset(s) + multiset{x}
  {
    if s == [] || InOrder(RatingOf(x), RatingOf(s[0]), descending) then [x] + s
    else
      assert s == [s[0]] + s[1..];
      [s[0]] + Insert(x, s[1..], descending)
  }

  /**
   * Python's stable `list.sort(key=lambda x: x.get('rating', 0), reverse=descending)`
   * as an insertion sort from the back.
   */
  function SortByRating(s: seq<Review>, descending: bool): (r: seq<Review>)
    ensures |r| == |s|
  {
    if s == [] then [] else Insert(s[0], SortByRating(s[1..], descending), descending)
  }

  /** Every review of `s` may stand after rating `a`. */
  predicate AllAfter(a: int, s: seq<Review>, descending: bool) {
    forall i :: 0 <= i < |s| ==> InOrder(a, RatingOf(s[i]), descending)
  }

  lemma InOrderTrans(a: int, b: int, c: int, descending: bool)
    requires InOrder(a, b, descending) && InOrder(b, c, descending)
    ensures InOrder(a, c, descending)
  {
  }

  lemma {:induction false} InsertAfter(a: int, x: Review, s: seq<Review>, descending: bool)
    requires AllAfter(a, s, descending) && InOrder(a, RatingOf(x), descending)
    ensures AllAfter(a, Insert(x, s, descending), descending)
  {
    if s != [] && !InOrder(RatingOf(x), RatingOf(s[0]), descending) {
      InsertAfter(a, x, s[1..], descending);
      var t := Insert(x, s[1..], descending);
      assert forall i :: 0 < i < |t| + 1 ==> ([s[0]] + t)[i] == t[i - 1];
    }
  }

  /** A sequence headed by `y` is sorted when its tail is and every review of the tail may follow `y`. */
  lemma SortedCons(y: Review, t: seq<Review>, descending: bool)
    requires SortedBy(t, descending) && AllAfter(RatingOf(y), t, descending)
    ensures SortedBy([y] + t, descending)
  {
    var u := [y] + t;
    forall i, j | 0 <= i < j < |u|
      ensures InOrder(RatingOf(u[i]), RatingOf(u[j]), descending)
    {
      if i > 0 {
        assert u[i] == t[i - 1] && u[j] == t[j - 1];
      } else {
        assert u[j] == t[j - 1];
      }
    }
  }

  lemma {:induction false} InsertSorted(x: Review, s: seq<Review>, descending: bool)
    requires SortedBy(s, descending)
    ensures SortedBy(Insert(x, s, descending), descending)
  {
    if s == [] {
      SortedCons(x, s, descending);
    } else if InOrder(RatingOf(x), RatingOf(s[0]), descending) {
      forall i | 0 <= i < |s|
        ensures InOrder(RatingOf(x), RatingOf(s[i]), descending)
      {
        if i > 0 {
          InOrderTrans(RatingOf(x), RatingOf(s[0]), RatingOf(s[i]), descending);
        }
      }
      SortedCons(x, s, descending);
    } else {
      var t := s[1..];
      assert SortedBy(t, descending) by {
        forall i, j | 0 <= i < j < |t| ensures InOrder(RatingOf(t[i]), RatingOf(t[j]), descending) {
          assert t[i] == s[i + 1] && t[j] == s[j + 1];
        }
      }
      assert AllAfter(RatingOf(s[0]), t, descending) by {
        forall i | 0 <= i < |t| ensures InOrder(RatingOf(s[0]), RatingOf(t[i]), descending) {
          assert t[i] == s[i + 1];
        }
      }
      InsertSorted(x, t, descending);
      InsertAfter(RatingOf(s[0]), x, t, descending);
      SortedCons(s[0], Insert(x, t, descending), descending);
    }
  }

  /** The ratings of a review and the rest. */
  lemma RatedAsCons(y: Review, t: seq<Review>, k: int)
    ensures RatedAs([y] + t, k) == (if RatingOf(y) == k then [y] else []) + RatedAs(t, k)
  {
    assert ([y] + t)[1..] == t;
  }

  /** Inserting a review keeps the reviews of every rating in their order, `x` ahead of those rated like it. */
  lemma {:induction false} InsertRatedAs(x: Review, s: seq<Review>, descending: bool, k: int)
    ensures RatedAs(Insert(x, s, descending), k) == (if RatingOf(x) == k then [x] else []) + RatedAs(s, k)
  {
    if s == [] || InOrder(RatingOf(x), RatingOf(s[0]), descending) {
      RatedAsCons(x, s, k);
    } else {
      var t := Insert(x, s[1..], descending);
      assert Insert(x, s, descending) == [s[0]] + t;
      InsertRatedAs(x, s[1..], descending, k);
      RatedAsCons(s[0], t, k);
      assert s == [s[0]] + s[1..];
      RatedAsCons(s[0], s[1..], k);
      // s[0] comes strictly before x, so at most one of the two has rating k.
      assert RatingOf(x) != RatingOf(s[0]);
      SwapOne(if RatingOf(s[0]) == k then [s[0]] else [], if RatingOf(x) == k then [x] else [], RatedAs(s[1..], k));
    }
  }

  /** Two pieces of which one is empty may be swapped. */
  lemma SwapOne<T>(a: seq<T>, b: seq<T>, rest: seq<T>)
    requires a == [] || b == []
    ensures a + (b + rest) == b + (a + rest)
  {
    if a == [] {
      assert a + (b + rest) == b + rest;
    } else {
      assert b + (a + rest) == a + rest;
    }
  }

  /** The sort orders the reviews by rating. */
  lemma {:induction false} SortByRatingSorted(s: seq<Review>, descending: bool)
    ensures SortedBy(SortByRating(s, descending), descending)
  {
    if s != [] {
      SortByRatingSorted(s[1..], descending);
      InsertSorted(s[0], SortByRating(s[1..], descending), descending);
    }
  }

  /** The sort only reorders: the same reviews, as often as before. */
  lemma {:induction false} SortByRatingPermutes(s: seq<Review>, descending: bool)
    ensures multiset(SortByRating(s, descending)) == multiset(s)
  {
    if s != [] {
      SortByRatingPermutes(s[1..], descending);
      assert s == [s[0]] + s[1..];
    }
  }

  /** The sort is stable: the reviews of each rating keep their original order. */
  lemma {:induction false} SortByRatingStable(s: seq<Review>, descending: bool, k: int)
    ensures RatedAs(SortByRating(s, descending), k) == RatedAs(s, k)
  {
    if s != [] {
      SortByRatingStable(s[1..], descending, k);
      InsertRatedAs(s[0], SortByRating(s[1..], descending), descending, k);
    }
  }

  /** The sort of the page: high first, low first, or the collection order. */
  function Ordered(reviews: seq<Review>, choice: string): (r: seq<Review>)
    ensures |r| == |reviews|
  {
    if choice == SortLabels[1] then SortByRating(reviews, true)
    else if choice == SortLabels[2] then SortByRating(reviews, false)
    else reviews
  }

  /**
   * "최신순" keeps the collection order. The two rating choices give a
   * permutation sorted high first or low first, in which the reviews of
   * each rating keep their collection order.
   */
  lemma OrderedSorts(reviews: seq<Review>, choice: string)
    requires choice in SortLabels
    ensures multiset(Ordered(reviews, choice)) == multiset(reviews)
    ensures choice == SortLabels[0] ==> Ordered(reviews, choice) == reviews
    ensures choice == SortLabels[1] ==> SortedBy(Ordered(reviews, choice), true)
    ensures choice == SortLabels[2] ==> SortedBy(Ordered(reviews, choice), false)
    ensures forall k :: RatedAs(Ordered(reviews, choice), k) == RatedAs(reviews, k)
  {
    if choice != SortLabels[0] {
      var descending := choice == SortLabels[1];
      SortByRatingSorted(reviews, descending);
      SortByRatingPermutes(reviews, descending);
      forall k ensures RatedAs(SortByRating(reviews, descending), k) == RatedAs(reviews, k) {
        SortByRatingStable(reviews, descending, k);
      }
    }
  }

  // ---------------------------------------------------------------------
  // The preview

  /** The filtered and ordered reviews the page works from. */
  function Selected(reviews: seq<Review>, ratingLabel: string, sortLabel: string): (r: seq<Review>)
    requires ratingLabel in RatingLabels
    ensures multiset(r) <= multiset(reviews)
  {
    var f := Filtered(reviews, ratingLabel);
    SortByRatingPermutes(f, true);
    SortByRatingPermutes(f, false);
    Ordered(f, sortLabel)
  }

  /** The reviews shown: the first 50 of the selection. */
  function Shown(selected: seq<Review>): (r: seq<Review>)
    ensures |r| <= PreviewLimit
    ensures r <= selected
    ensures |selected| <= PreviewLimit ==> r == selected
  {
    PyPrefix(selected, PreviewLimit)
  }

  /** The page says only part is shown exactly when the selection has more than 50 reviews, i.e. when some are not shown. */
  function Truncated(selected: seq<Review>): (b: bool)
    ensures b <==> |Shown(selected)| < |selected|
  {
    |selected| > PreviewLimit
  }

  /**
   * What the preview shows: reviews that were collected, each with the chosen
   * rating when a rating is chosen, in rating order when a sort is chosen.
   */
  lemma PreviewShows(reviews: seq<Review>, ratingLabel: string, sortLabel: string)
    requires ratingLabel in RatingLabels
    ensures var shown := Shown(Selected(reviews, ratingLabel, sortLabel));
            && (forall i :: 0 <= i < |shown| ==> shown[i] in reviews)
            && (ChosenRating(ratingLabel).Some? ==> forall i :: 0 <= i < |shown| ==> shown[i].rating == ChosenRating(ratingLabel))
            && (sortLabel == SortLabels[1] ==> SortedBy(shown, true))
            && (sortLabel == SortLabels[2] ==> SortedBy(shown, false))
  {
    var f := Filtered(reviews, ratingLabel);
    var sel := Selected(reviews, ratingLabel, sortLabel);
    var shown := Shown(sel);
    SortByRatingSorted(f, true);
    SortByRatingSorted(f, false);
    SortByRatingPermutes(f, true);
    SortByRatingPermutes(f, false);
    forall i | 0 <= i < |shown|
      ensures shown[i] in reviews
      ensures ChosenRating(ratingLabel).Some? ==> shown[i].rating == ChosenRating(ratingLabel)
    {
      assert shown[i] == sel[i];
      assert sel[i] in multiset(sel);
      assert sel[i] in multiset(f);
      if ChosenRating(ratingLabel).Some? {
        var m :| 0 <= m < |f| && f[m] == sel[i];
      }
    }
  }
}

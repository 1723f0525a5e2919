/**
 * The other half of what `fetch_ios_reviews` (app.py) guarantees: short of
 * the target, every entry of a page read to its end is collected unless
 * its id already turned up on a page requested before or earlier on the
 * same page. `FeedSpec` proves the converse, that every collected review
 * comes from such an entry.
 */
module FeedComplete {
  import opened Wrappers
  import opened Records
  import opened FeedSpec

  /** The entries the feed serves at `c`, none when it serves no page there. */
  function Entries(feed: Feed, c: Cursor): seq<FeedEntry> {
    match PageAt(feed, c)
    case Some(es) => es
    case None => []
  }

  /** The ids of the entries from index `k` on. */
  function IdsFrom(es: seq<FeedEntry>, k: nat): set<string> {
    set m | k <= m < |es| && es[m].id.Some? :: es[m].id.value
  }

  /** Every id the collector can have met on the pages of `requests`: the ids of their entries after the first. */
  function VisitedIds(feed: Feed, requests: seq<Request>): set<string>
    decreases |requests|
  {
    if requests == [] then {}
    else VisitedIds(feed, requests[..|requests| - 1]) + IdsFrom(Entries(feed, requests[|requests| - 1].cursor), 1)
  }

  /**
   * Entry `k` of the page at `c` is one the collector must take when it
   * reads the page after the requests `earlier`: it has no id, or an id
   * met neither on those pages nor earlier on this one.
   */
  predicate Eligible(feed: Feed, earlier: seq<Request>, c: Cursor, k: nat)
    requires k < |Entries(feed, c)|
  {
    var es := Entries(feed, c);
    || es[k].id.None?
    || (&& es[k].id.value !in VisitedIds(feed, earlier)
        && forall n :: 1 <= n < k ==> es[n].id != es[k].id)
  }

  // ---------------------------------------------------------------------
  // One page

  /** A scan only adds reviews and marks as seen only ids of the entries it reads. */
  lemma {:induction false} ScanSeenWithin(page: seq<FeedEntry>, cur: Cursor, k: nat, st: Session, target: int)
    requires ValidCursor(cur) && 1 <= k <= |page|
    ensures var s2 := ScanEntries(page, cur, k, st, target).0;
            st.origins <= s2.origins && s2.seen <= st.seen + IdsFrom(page, k)
    decreases |page| - k
  {
    if k < |page| {
      var e := page[k];
      assert IdsFrom(page, k + 1) <= IdsFrom(page, k);
      if e.id.Some? && e.id.value in st.seen {
        ScanSeenWithin(page, cur, k + 1, st, target);
      } else {
        var seen := if e.id.Some? then st.seen + {e.id.value} else st.seen;
        assert e.id.Some? ==> e.id.value in IdsFrom(page, k);
        match BuildReview(e, Countries[cur.countryIndex])
        case None =>
        case Some(r) =>
          var next := st.(reviews := st.reviews + [r], seen := seen, origins := st.origins + [Origin(cur, k)]);
          if |next.reviews| < target {
            ScanSeenWithin(page, cur, k + 1, next, target);
          }
      }
    }
  }

  /**
   * A scan from entry `k` that neither raised nor reached the target
   * collects every entry `m >= k` that has no id, or whose id was not seen
   * and does not occur between `k` and `m`.
   */
  lemma {:induction false} ScanEntriesComplete(page: seq<FeedEntry>, cur: Cursor, k: nat, st: Session, target: int, m: nat)
    requires ValidCursor(cur) && 1 <= k <= m < |page|
    requires !ScanEntries(page, cur, k, st, target).1 && |ScanEntries(page, cur, k, st, target).0.reviews| < target
    requires page[m].id.None? || (page[m].id.value !in st.seen && forall n :: k <= n < m ==> page[n].id != page[m].id)
    ensures Origin(cur, m) in ScanEntries(page, cur, k, st, target).0.origins
    decreases |page| - k
  {
    var e := page[k];
    if e.id.Some? && e.id.value in st.seen {
      ScanEntriesComplete(page, cur, k + 1, st, target, m);
    } else {
      var seen := if e.id.Some? then st.seen + {e.id.value} else st.seen;
      var r := BuildReview(e, Countries[cur.countryIndex]).value;
      var next := st.(reviews := st.reviews + [r], seen := seen, origins := st.origins + [Origin(cur, k)]);
      assert ScanEntries(page, cur, k, st, target) == ScanEntries(page, cur, k + 1, next, target);
      if m == k {
        ScanSeenWithin(page, cur, k + 1, next, target);
        assert next.origins[|st.origins|] == Origin(cur, k);
      } else {
        ScanEntriesComplete(page, cur, k + 1, next, target, m);
      }
    }
  }

  // ---------------------------------------------------------------------
  // The invariant of the traversal

  /** Request `j`, if its page was read to its end, took every entry eligible after the requests before it. */
  predicate ScanDone(feed: Feed, st: Session, j: nat)
    requires j < |st.requests|
  {
    var c := st.requests[j].cursor;
    st.requests[j].outcome == Scanned ==>
      forall k :: 1 <= k < |Entries(feed, c)| && Eligible(feed, st.requests[..j], c, k) ==> Origin(c, k) in st.origins
  }

  /** The seen ids come from the pages requested, and, short of the target, every page read to its end took its eligible entries. */
  predicate Tracked(feed: Feed, target: int, st: Session) {
    && st.seen <= VisitedIds(feed, st.requests)
    && (|st.reviews| < target ==> forall j :: 0 <= j < |st.requests| ==> ScanDone(feed, st, j))
  }

  lemma VisitedSnoc(feed: Feed, requests: seq<Request>, q: Request)
    ensures VisitedIds(feed, requests + [q]) == VisitedIds(feed, requests) + IdsFrom(Entries(feed, q.cursor), 1)
  {
    assert (requests + [q])[..|requests|] == requests;
  }

  lemma ScanDoneKept(feed: Feed, st: Session, st2: Session, j: nat)
    requires j < |st.requests| && ScanDone(feed, st, j)
    requires st.requests <= st2.requests && st.origins <= st2.origins
    ensures ScanDone(feed, st2, j)
  {
    var c := st.requests[j].cursor;
    assert st2.requests[j] == st.requests[j];
    assert st2.requests[..j] == st.requests[..j];
    forall k | 1 <= k < |Entries(feed, c)| && st.requests[j].outcome == Scanned && Eligible(feed, st2.requests[..j], c, k)
      ensures Origin(c, k) in st2.origins
    {
      var i :| 0 <= i < |st.origins| && st.origins[i] == Origin(c, k);
      assert st2.origins[i] == st.origins[i];
    }
  }

  /** Recording one request, and whatever its page added, keeps the invariant. */
  lemma AppendRequestTracked(feed: Feed, target: int, st: Session, s2: Session, q: Request)
    requires Tracked(feed, target, st)
    requires s2.requests == st.requests + [q]
    requires s2.seen <= st.seen + IdsFrom(Entries(feed, q.cursor), 1)
    requires st.origins <= s2.origins && |st.reviews| <= |s2.reviews|
    requires q.outcome == Scanned && |s2.reviews| < target ==> ScanDone(feed, s2, |st.requests|)
    ensures Tracked(feed, target, s2)
  {
    VisitedSnoc(feed, st.requests, q);
    if |s2.reviews| < target {
      forall j | 0 <= j < |s2.requests|
        ensures ScanDone(feed, s2, j)
      {
        if j < |st.requests| {
          ScanDoneKept(feed, st, s2, j);
        }
      }
    }
  }

  /** A page read to its end, short of the target, took every eligible entry. */
  lemma ScannedDone(feed: Feed, st: Session, entries: seq<FeedEntry>, cur: Cursor, target: int)
    requires ValidCursor(cur) && PageAt(feed, cur) == Some(entries) && |entries| > 1
    requires st.seen <= VisitedIds(feed, st.requests)
    requires var st1 := st.(requests := st.requests + [Request(cur, Scanned)]);
             !ScanEntries(entries, cur, 1, st1, target).1 && |ScanEntries(entries, cur, 1, st1, target).0.reviews| < target
    ensures var scanned := ScanEntries(entries, cur, 1, st.(requests := st.requests + [Request(cur, Scanned)]), target).0;
            |st.requests| < |scanned.requests| && ScanDone(feed, scanned, |st.requests|)
  {
    var st1 := st.(requests := st.requests + [Request(cur, Scanned)]);
    ScanKeepsRequests(entries, cur, 1, st1, target);
    var scanned := ScanEntries(entries, cur, 1, st1, target).0;
    var j := |st.requests|;
    assert scanned.requests[j] == Request(cur, Scanned);
    assert scanned.requests[..j] == st.requests;
    forall k | 1 <= k < |Entries(feed, cur)| && Eligible(feed, scanned.requests[..j], cur, k)
      ensures Origin(cur, k) in scanned.origins
    {
      ScanEntriesComplete(entries, cur, 1, st1, target, k);
    }
  }

  // ---------------------------------------------------------------------
  // The invariant holds at every level

  lemma RunPagesTracked(feed: Feed, ci: nat, si: nat, page: nat, st: Session, target: int)
    requires ci < |Countries| && si < |SortOrders| && 1 <= page && Tracked(feed, target, st)
    ensures var r := RunPages(feed, ci, si, page, st, target);
            && Tracked(feed, target, r)
            && st.requests <= r.requests && st.origins <= r.origins && |st.reviews| <= |r.reviews|
    decreases LastPage + 1 - page, 1
  {
    if page <= LastPage && |st.reviews| < target {
      var cur := Cursor(ci, si, page);
      match PageAt(feed, cur)
      case None =>
        AppendRequestTracked(feed, target, st, st.(requests := st.requests + [Request(cur, Failed)]), Request(cur, Failed));
      case Some(entries) =>
        if |entries| <= 1 {
          AppendRequestTracked(feed, target, st, st.(requests := st.requests + [Request(cur, TooShort)]), Request(cur, TooShort));
        } else {
          var st1 := st.(requests := st.requests + [Request(cur, Scanned)]);
          ScanKeepsRequests(entries, cur, 1, st1, target);
          ScanSeenWithin(entries, cur, 1, st1, target);
          var scanned := ScanEntries(entries, cur, 1, st1, target).0;
          if ScanEntries(entries, cur, 1, st1, target).1 {
            AppendRequestTracked(feed, target, st, scanned.(requests := st.requests + [Request(cur, Raised)]), Request(cur, Raised));
          } else {
            if |scanned.reviews| < target {
              ScannedDone(feed, st, entries, cur, target);
            }
            AppendRequestTracked(feed, target, st, scanned, Request(cur, Scanned));
            RunPagesContinues(feed, ci, si, page, st, target);
            NextPageTracked(feed, ci, si, page, st, scanned, target);
          }
        }
    }
  }

  lemma NextPageTracked(feed: Feed, ci: nat, si: nat, page: nat, st: Session, scanned: Session, target: int)
    requires ci < |Countries| && si < |SortOrders| && 1 <= page <= LastPage && Tracked(feed, target, scanned)
    requires st.requests <= scanned.requests && st.origins <= scanned.origins && |st.reviews| <= |scanned.reviews|
    requires RunPages(feed, ci, si, page, st, target) == RunPages(feed, ci, si, page + 1, scanned, target)
    ensures var r := RunPages(feed, ci, si, page, st, target);
            && Tracked(feed, target, r)
            && st.requests <= r.requests && st.origins <= r.origins && |st.reviews| <= |r.reviews|
    decreases LastPage + 1 - page, 0
  {
    RunPagesTracked(feed, ci, si, page + 1, scanned, target);
  }

  lemma RunSortsTracked(feed: Feed, ci: nat, si: nat, st: Session, target: int)
    requires ci < |Countries| && Tracked(feed, target, st)
    ensures var r := RunSorts(feed, ci, si, st, target);
            && Tracked(feed, target, r)
            && st.requests <= r.requests && st.origins <= r.origins && |st.reviews| <= |r.reviews|
    decreases |SortOrders| - si
  {
    if si < |SortOrders| && |st.reviews| < target {
      RunPagesTracked(feed, ci, si, 1, st, target);
      RunSortsTracked(feed, ci, si + 1, RunPages(feed, ci, si, 1, st, target), target);
    }
  }

  lemma RunCountriesTracked(feed: Feed, ci: nat, st: Session, target: int)
    requires Tracked(feed, target, st)
    ensures var r := RunCountries(feed, ci, st, target);
            && Tracked(feed, target, r)
            && st.requests <= r.requests && st.origins <= r.origins && |st.reviews| <= |r.reviews|
    decreases |Countries| - ci
  {
    if ci < |Countries| && |st.reviews| < target {
      RunSortsTracked(feed, ci, 0, st, target);
      RunCountriesTracked(feed, ci + 1, RunSorts(feed, ci, 0, st, target), target);
    }
  }

  /**
   * Short of the target, every entry after the first of a page read to its
   * end is collected, built for its page's country, unless its id turned
   * up on a page requested before or earlier on the same page.
   */
  lemma CollectTakesEligible(feed: Feed, target: int, j: nat, k: nat)
    requires |Collect(feed, target).reviews| < target
    requires j < |Collect(feed, target).requests| && Collect(feed, target).requests[j].outcome == Scanned
    requires var c := Collect(feed, target).requests[j].cursor;
             1 <= k < |Entries(feed, c)| && Eligible(feed, Collect(feed, target).requests[..j], c, k)
    ensures var r := Collect(feed, target);
            var c := r.requests[j].cursor;
            exists i :: 0 <= i < |r.origins| && i < |r.reviews| && r.origins[i] == Origin(c, k)
                        && BuildReview(Entries(feed, c)[k], Countries[c.countryIndex]) == Some(r.reviews[i])
  {
    var r := Collect(feed, target);
    var c := r.requests[j].cursor;
    RunCountriesTracked(feed, 0, Start, target);
    assert ScanDone(feed, r, j);
    CollectIsGood(feed, target);
    var i :| 0 <= i < |r.origins| && r.origins[i] == Origin(c, k);
    assert EntryAt(feed, r.origins[i]).Some?;
  }
}

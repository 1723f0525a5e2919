/**
 * What a raising entry leaves behind in `fetch_ios_reviews` (app.py): the
 * entry's id is added to `seen_ids` before its fields are read, so when
 * `int()` then raises on its rating the id stays marked, and no copy of
 * that review is collected later in the call, on another page or under
 * the other sort order.
 */
module FeedRaised {
  import opened Wrappers
  import opened Records
  import opened FeedSpec
  import opened FeedComplete

  /**
   * Entry `m` of the page at `c` is one whose record could not be built,
   * and, if it has an id, that id is marked seen in `st` and no review of
   * `st` comes from an entry with that id.
   */
  predicate Dropped(feed: Feed, st: Session, c: Cursor, m: nat) {
    && ValidCursor(c) && 1 <= m < |Entries(feed, c)|
    && BuildReview(Entries(feed, c)[m], Countries[c.countryIndex]).None?
    && (Entries(feed, c)[m].id.Some? ==>
          && Entries(feed, c)[m].id.value in st.seen
          && forall i :: 0 <= i < |st.origins| ==> OriginId(feed, st.origins[i]) != Entries(feed, c)[m].id)
  }

  /** Every request whose page raised has an entry that was dropped. */
  ghost predicate RaisedDropped(feed: Feed, st: Session) {
    forall j :: 0 <= j < |st.requests| && st.requests[j].outcome == Raised ==>
      exists m :: Dropped(feed, st, st.requests[j].cursor, m)
  }

  /** The traversal's invariant here: collected ids are marked seen, and every raising page dropped an entry. */
  ghost predicate RaisesRecorded(feed: Feed, st: Session) {
    IdsSeen(feed, st) && RaisedDropped(feed, st)
  }

  /** A dropped entry stays dropped: later reviews only ever have ids that were not yet seen. */
  lemma DroppedKept(feed: Feed, st: Session, st2: Session, c: Cursor, m: nat)
    requires Dropped(feed, st, c, m) && Grows(feed, st, st2)
    ensures Dropped(feed, st2, c, m)
  {
    var e := Entries(feed, c)[m];
    if e.id.Some? {
      forall i | 0 <= i < |st2.origins|
        ensures OriginId(feed, st2.origins[i]) != e.id
      {
        if i < |st.origins| {
          assert st2.origins[i] == st.origins[i];
        }
      }
    }
  }

  /**
   * A scan only adds reviews with unseen ids and keeps collected ids
   * marked seen; when it raises, the entry that raised is dropped.
   */
  lemma {:induction false} ScanDrops(feed: Feed, page: seq<FeedEntry>, cur: Cursor, k: nat, st: Session, target: int)
    requires ValidCursor(cur) && PageAt(feed, cur) == Some(page) && 1 <= k <= |page|
    requires IdsSeen(feed, st)
    ensures var (s2, raised) := ScanEntries(page, cur, k, st, target);
            && Grows(feed, st, s2) && IdsSeen(feed, s2) && s2.requests == st.requests
            && (raised ==> exists m :: Dropped(feed, s2, cur, m))
    decreases |page| - k
  {
    if k < |page| {
      var e := page[k];
      assert Entries(feed, cur) == page;
      if e.id.Some? && e.id.value in st.seen {
        ScanDrops(feed, page, cur, k + 1, st, target);
      } else {
        var seen := if e.id.Some? then st.seen + {e.id.value} else st.seen;
        match BuildReview(e, Countries[cur.countryIndex])
        case None =>
          var s2 := st.(seen := seen);
          assert ScanEntries(page, cur, k, st, target) == (s2, true);
          assert Dropped(feed, s2, cur, k);
        case Some(r) =>
          var next := st.(reviews := st.reviews + [r], seen := seen, origins := st.origins + [Origin(cur, k)]);
          assert OriginId(feed, Origin(cur, k)) == e.id by {
            assert EntryAt(feed, Origin(cur, k)) == Some(e);
          }
          assert Grows(feed, st, next) by {
            assert next.origins[|st.origins|] == Origin(cur, k);
          }
          assert IdsSeen(feed, next) by {
            forall i | 0 <= i < |next.origins| && OriginId(feed, next.origins[i]).Some?
              ensures OriginId(feed, next.origins[i]).value in next.seen
            {
              if i < |st.origins| {
                assert next.origins[i] == st.origins[i];
              }
            }
          }
          if |next.reviews| < target {
            assert ScanEntries(page, cur, k, st, target) == ScanEntries(page, cur, k + 1, next, target);
            ScanDrops(feed, page, cur, k + 1, next, target);
            GrowsTrans(feed, st, next, ScanEntries(page, cur, k + 1, next, target).0);
          }
      }
    }
  }

  /** Recording one request, after a step that only grew the session, keeps every earlier raising page's dropped entry. */
  lemma AppendRequestRecorded(feed: Feed, st: Session, s2: Session, q: Request)
    requires RaisesRecorded(feed, st) && IdsSeen(feed, s2) && Grows(feed, st, s2)
    requires s2.requests == st.requests + [q]
    requires q.outcome == Raised ==> exists m :: Dropped(feed, s2, q.cursor, m)
    ensures RaisesRecorded(feed, s2)
  {
    forall j | 0 <= j < |s2.requests| && s2.requests[j].outcome == Raised
      ensures exists m :: Dropped(feed, s2, s2.requests[j].cursor, m)
    {
      if j < |st.requests| {
        assert s2.requests[j] == st.requests[j];
        var m :| Dropped(feed, st, st.requests[j].cursor, m);
        DroppedKept(feed, st, s2, st.requests[j].cursor, m);
      }
    }
  }

  /** A page that raised: the dropped entry the scan left stays dropped once the request is recorded as raised. */
  lemma RaisedPageRecorded(feed: Feed, st: Session, entries: seq<FeedEntry>, cur: Cursor, target: int)
    requires ValidCursor(cur) && PageAt(feed, cur) == Some(entries) && |entries| > 1
    requires RaisesRecorded(feed, st)
    requires ScanEntries(entries, cur, 1, st.(requests := st.requests + [Request(cur, Scanned)]), target).1
    ensures var scanned := ScanEntries(entries, cur, 1, st.(requests := st.requests + [Request(cur, Scanned)]), target).0;
            var r := scanned.(requests := st.requests + [Request(cur, Raised)]);
            RaisesRecorded(feed, r) && Grows(feed, st, r)
  {
    var st1 := st.(requests := st.requests + [Request(cur, Scanned)]);
    ScanDrops(feed, entries, cur, 1, st1, target);
    var scanned := ScanEntries(entries, cur, 1, st1, target).0;
    var r := scanned.(requests := st.requests + [Request(cur, Raised)]);
    var m :| Dropped(feed, scanned, cur, m);
    assert Dropped(feed, r, cur, m);
    AppendRequestRecorded(feed, st, r, Request(cur, Raised));
  }

  // ---------------------------------------------------------------------
  // The invariant holds at every level

  lemma RunPagesRecorded(feed: Feed, ci: nat, si: nat, page: nat, st: Session, target: int)
    requires ci < |Countries| && si < |SortOrders| && 1 <= page && RaisesRecorded(feed, st)
    ensures var r := RunPages(feed, ci, si, page, st, target);
            RaisesRecorded(feed, r) && Grows(feed, st, r)
    decreases LastPage + 1 - page, 1
  {
    if page <= LastPage && |st.reviews| < target {
      var cur := Cursor(ci, si, page);
      match PageAt(feed, cur)
      case None =>
        AppendRequestRecorded(feed, st, st.(requests := st.requests + [Request(cur, Failed)]), Request(cur, Failed));
      case Some(entries) =>
        if |entries| <= 1 {
          AppendRequestRecorded(feed, st, st.(requests := st.requests + [Request(cur, TooShort)]), Request(cur, TooShort));
        } else {
          var st1 := st.(requests := st.requests + [Request(cur, Scanned)]);
          if ScanEntries(entries, cur, 1, st1, target).1 {
            RaisedPageRecorded(feed, st, entries, cur, target);
          } else {
            ScanDrops(feed, entries, cur, 1, st1, target);
            var scanned := ScanEntries(entries, cur, 1, st1, target).0;
            GrowsTrans(feed, st, st1, scanned);
            AppendRequestRecorded(feed, st, scanned, Request(cur, Scanned));
            RunPagesContinues(feed, ci, si, page, st, target);
            NextPageRecorded(feed, ci, si, page, st, scanned, target);
          }
        }
    }
  }

  lemma NextPageRecorded(feed: Feed, ci: nat, si: nat, page: nat, st: Session, scanned: Session, target: int)
    requires ci < |Countries| && si < |SortOrders| && 1 <= page <= LastPage
    requires RaisesRecorded(feed, scanned) && Grows(feed, st, scanned)
    requires RunPages(feed, ci, si, page, st, target) == RunPages(feed, ci, si, page + 1, scanned, target)
    ensures var r := RunPages(feed, ci, si, page, st, target);
            RaisesRecorded(feed, r) && Grows(feed, st, r)
    decreases LastPage + 1 - page, 0
  {
    RunPagesRecorded(feed, ci, si, page + 1, scanned, target);
    GrowsTrans(feed, st, scanned, RunPages(feed, ci, si, page + 1, scanned, target));
  }

  lemma RunSortsRecorded(feed: Feed, ci: nat, si: nat, st: Session, target: int)
    requires ci < |Countries| && RaisesRecorded(feed, st)
    ensures var r := RunSorts(feed, ci, si, st, target);
            RaisesRecorded(feed, r) && Grows(feed, st, r)
    decreases |SortOrders| - si
  {
    if si < |SortOrders| && |st.reviews| < target {
      var st1 := RunPages(feed, ci, si, 1, st, target);
      RunPagesRecorded(feed, ci, si, 1, st, target);
      RunSortsRecorded(feed, ci, si + 1, st1, target);
      GrowsTrans(feed, st, st1, RunSorts(feed, ci, si + 1, st1, target));
    }
  }

  lemma RunCountriesRecorded(feed: Feed, ci: nat, st: Session, target: int)
    requires RaisesRecorded(feed, st)
    ensures var r := RunCountries(feed, ci, st, target);
            RaisesRecorded(feed, r) && Grows(feed, st, r)
    decreases |Countries| - ci
  {
    if ci < |Countries| && |st.reviews| < target {
      var st1 := RunSorts(feed, ci, 0, st, target);
      RunSortsRecorded(feed, ci, 0, st, target);
      RunCountriesRecorded(feed, ci + 1, st1, target);
      GrowsTrans(feed, st, st1, RunCountries(feed, ci + 1, st1, target));
    }
  }

  /**
   * Every page whose reading raised has an entry after the first whose
   * rating `int()` rejects; if that entry has an id, the id ends up among
   * the seen ids and no collected review, from any page of any country or
   * sort order, comes from an entry with that id.
   */
  lemma RaisedEntryNeverCollected(feed: Feed, target: int, j: nat)
    requires j < |Collect(feed, target).requests| && Collect(feed, target).requests[j].outcome == Raised
    ensures var r := Collect(feed, target);
            var c := r.requests[j].cursor;
            && ValidCursor(c)
            && exists m :: && 1 <= m < |Entries(feed, c)|
                           && BuildReview(Entries(feed, c)[m], Countries[c.countryIndex]).None?
                           && var id := Entries(feed, c)[m].id;
                              id.Some? ==>
                                && id.value in r.seen
                                && forall i :: 0 <= i < |r.origins| ==> OriginId(feed, r.origins[i]) != id
  {
    RunCountriesRecorded(feed, 0, Start, target);
    var r := Collect(feed, target);
    var m :| Dropped(feed, r, r.requests[j].cursor, m);
  }
}

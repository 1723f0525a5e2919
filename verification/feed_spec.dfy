/**
 * The App Store side of `fetch_ios_reviews` (app.py) as recursive functions,
 * one per loop of the source: countries, then sort orders, then pages, then
 * the entries of a page. `FeedDriver` runs the loops themselves and is
 * proved to compute exactly `Collect`; the lemmas here say what `Collect`
 * guarantees.
 */
module FeedSpec {
  import opened Wrappers
  import opened Numbers
  import opened Records

  const Countries: seq<string> := ["kr", "us", "jp", "gb", "au", "ca"]
  const SortOrders: seq<string> := ["mostrecent", "mosthelpful"]
  const LastPage: nat := 10

  /**
   * One `<entry>` of the customer-review feed: the text of each child
   * element the collector looks for, or `None` when the element is absent
   * (`authorName` is the `<name>` inside `<author>`).
   */
  datatype FeedEntry = FeedEntry(
    id: Option<string>,
    title: Option<string>,
    content: Option<string>,
    authorName: Option<string>,
    rating: Option<string>,
    updated: Option<string>)

  /**
   * The feed, by country, sort order and page: the page's entries in
   * document order, or `None` when the request does not yield a parsed
   * page (a status other than 200, a transport error or unparsable XML).
   */
  type Feed = (string, string, nat) -> Option<seq<FeedEntry>>

  /** A position of the traversal, by index into `Countries` and `SortOrders`. */
  datatype Cursor = Cursor(countryIndex: nat, sortIndex: nat, page: nat)

  predicate ValidCursor(c: Cursor) {
    c.countryIndex < |Countries| && c.sortIndex < |SortOrders| && 1 <= c.page <= LastPage
  }

  function PageAt(feed: Feed, c: Cursor): Option<seq<FeedEntry>> {
    if ValidCursor(c) then feed(Countries[c.countryIndex], SortOrders[c.sortIndex], c.page) else None
  }

  /** Traversal order: country first, then sort order, then page. */
  predicate CursorBefore(a: Cursor, b: Cursor) {
    || a.countryIndex < b.countryIndex
    || (a.countryIndex == b.countryIndex && a.sortIndex < b.sortIndex)
    || (a.countryIndex == b.countryIndex && a.sortIndex == b.sortIndex && a.page < b.page)
  }

  predicate SamePair(a: Cursor, b: Cursor) {
    a.countryIndex == b.countryIndex && a.sortIndex == b.sortIndex
  }

  /** The first 10 characters, Python's `text[:10]`. */
  function DatePart(text: string): (d: string)
    ensures d <= text && |d| == (if |text| < 10 then |text| else 10)
  {
    if |text| < 10 then text else text[..10]
  }

  /**
   * The record built from one entry, or `None` when `int()` raises on the
   * rating text. Missing elements give an empty title, content and date,
   * the anonymous author and rating 0.
   */
  function BuildReview(e: FeedEntry, country: string): (r: Option<Review>)
    ensures r.None? <==> e.rating.Some? && ParseInt(e.rating.value).None?
    ensures r.Some? ==> r.value.country == Some(country)
    ensures r.Some? ==> r.value.date.Some? && |r.value.date.value| <= 10
    ensures r.Some? && e.updated.Some? ==> r.value.date.value <= e.updated.value
    ensures r.Some? && e.rating.Some? ==> r.value.rating == ParseInt(e.rating.value)
  {
    var rating := if e.rating.Some? then ParseInt(e.rating.value) else Some(0);
    if rating.None? then None
    else Some(Review(
      title := Some(e.title.GetOr("")),
      content := Some(e.content.GetOr("")),
      author := Some(e.authorName.GetOr(Anonymous)),
      rating := rating,
      date := Some(if e.updated.Some? then DatePart(e.updated.value) else ""),
      country := Some(country)))
  }

  // ---------------------------------------------------------------------
  // The traversal

  /** How one page request ended. */
  datatype Outcome =
    | Failed    // the request gave no parsed page
    | TooShort  // the page had at most one entry
    | Raised    // reading an entry raised; the rest of the page was dropped
    | Scanned   // the page was read to its end or until the target was reached

  datatype Request = Request(cursor: Cursor, outcome: Outcome)

  /** Where a collected review came from: its page and its position there. */
  datatype Origin = Origin(cursor: Cursor, index: nat)

  /**
   * The collector's state: the list of reviews and the set of entry ids
   * seen, as in the source, with a record of where each review came from
   * and of every page requested.
   */
  datatype Session = Session(reviews: seq<Review>, seen: set<string>, origins: seq<Origin>, requests: seq<Request>)

  const Start: Session := Session([], {}, [], [])

  /**
   * The entries of one page from index `k` on. An entry whose id was seen
   * is skipped; otherwise its id is marked seen before its fields are read.
   * Stops after the append that reaches `target`; the flag says whether
   * reading an entry raised.
   */
  function ScanEntries(page: seq<FeedEntry>, cur: Cursor, k: nat, st: Session, target: int): (Session, bool)
    requires ValidCursor(cur) && 1 <= k <= |page|
    decreases |page| - k
  {
    if k == |page| then (st, false)
    else
      var e := page[k];
      if e.id.Some? && e.id.value in st.seen then ScanEntries(page, cur, k + 1, st, target)
      else
        var seen := if e.id.Some? then st.seen + {e.id.value} else st.seen;
        match BuildReview(e, Countries[cur.countryIndex])
        case None => (st.(seen := seen), true)
        case Some(r) =>
          var next := st.(reviews := st.reviews + [r], seen := seen, origins := st.origins + [Origin(cur, k)]);
          if |next.reviews| >= target then (next, false) else ScanEntries(page, cur, k + 1, next, target)
  }

  /** Pages `page`..10 of one (country, sort order) pair, abandoned at the first page that fails, is too short or raises. */
  function RunPages(feed: Feed, ci: nat, si: nat, page: nat, st: Session, target: int): Session
    requires ci < |Countries| && si < |SortOrders| && 1 <= page
    decreases LastPage + 1 - page
  {
    if page > LastPage || |st.reviews| >= target then st
    else
      var cur := Cursor(ci, si, page);
      match PageAt(feed, cur)
      case None => st.(requests := st.requests + [Request(cur, Failed)])
      case Some(entries) =>
        if |entries| <= 1 then st.(requests := st.requests + [Request(cur, TooShort)])
        else
          var (scanned, raised) := ScanEntries(entries, cur, 1, st.(requests := st.requests + [Request(cur, Scanned)]), target);
          if raised then scanned.(requests := st.requests + [Request(cur, Raised)])
          else RunPages(feed, ci, si, page + 1, scanned, target)
  }

  /** The sort orders from `si` on, for one country. */
  function RunSorts(feed: Feed, ci: nat, si: nat, st: Session, target: int): Session
    requires ci < |Countries|
    decreases |SortOrders| - si
  {
    if si >= |SortOrders| || |st.reviews| >= target then st
    else RunSorts(feed, ci, si + 1, RunPages(feed, ci, si, 1, st, target), target)
  }

  /** The countries from `ci` on. */
  function RunCountries(feed: Feed, ci: nat, st: Session, target: int): Session
    decreases |Countries| - ci
  {
    if ci >= |Countries| || |st.reviews| >= target then st
    else RunCountries(feed, ci + 1, RunSorts(feed, ci, 0, st, target), target)
  }

  /** The whole traversal from an empty session. */
  function Collect(feed: Feed, target: int): Session {
    RunCountries(feed, 0, Start, target)
  }

  // ---------------------------------------------------------------------
  // The invariant of the traversal

  /** The entry `o` points at, if the feed has one there after the page's first entry. */
  function EntryAt(feed: Feed, o: Origin): (r: Option<FeedEntry>)
    ensures r.Some? ==>
              && ValidCursor(o.cursor) && PageAt(feed, o.cursor).Some?
              && 1 <= o.index < |PageAt(feed, o.cursor).value|
              && r.value == PageAt(feed, o.cursor).value[o.index]
  {
    match PageAt(feed, o.cursor)
    case Some(es) => if 1 <= o.index < |es| then Some(es[o.index]) else None
    case None => None
  }

  function OriginId(feed: Feed, o: Origin): Option<string> {
    match EntryAt(feed, o)
    case Some(e) => e.id
    case None => None
  }

  predicate Bounded(target: int, st: Session) {
    |st.reviews| <= if target < 0 then 0 else target
  }

  /** Every review was built, for its page's country, from an entry after the first of a page the feed served. */
  predicate Provenance(feed: Feed, st: Session) {
    && |st.origins| == |st.reviews|
    && forall i :: 0 <= i < |st.origins| ==>
         EntryAt(feed, st.origins[i]).Some?
         && BuildReview(EntryAt(feed, st.origins[i]).value, Countries[st.origins[i].cursor.countryIndex]) == Some(st.reviews[i])
  }

  /** The ids of collected entries are marked seen. */
  predicate IdsSeen(feed: Feed, st: Session) {
    forall i :: 0 <= i < |st.origins| && OriginId(feed, st.origins[i]).Some? ==>
      OriginId(feed, st.origins[i]).value in st.seen
  }

  /** The ids of collected entries are marked seen and no two are equal. */
  predicate IdsUnique(feed: Feed, st: Session) {
    && IdsSeen(feed, st)
    && (forall i, j :: 0 <= i < j < |st.origins| && OriginId(feed, st.origins[i]).Some? ==>
          OriginId(feed, st.origins[i]) != OriginId(feed, st.origins[j]))
  }

  predicate OriginBefore(a: Origin, b: Origin) {
    CursorBefore(a.cursor, b.cursor) || (a.cursor == b.cursor && a.index < b.index)
  }

  /** Requests and reviews both follow traversal order, and no review comes from beyond the last request. */
  predicate Ordered(st: Session) {
    && (forall i, j :: 0 <= i < j < |st.requests| ==> CursorBefore(st.requests[i].cursor, st.requests[j].cursor))
    && (forall i, j :: 0 <= i < j < |st.origins| ==> OriginBefore(st.origins[i], st.origins[j]))
    && (forall i :: 0 <= i < |st.origins| ==>
          |st.requests| > 0 && !CursorBefore(st.requests[|st.requests| - 1].cursor, st.origins[i].cursor))
  }

  /** The recorded outcome is what the feed's page at that cursor leads to. */
  predicate OutcomeFits(feed: Feed, q: Request) {
    && ValidCursor(q.cursor)
    && match q.outcome
       case Failed => PageAt(feed, q.cursor).None?
       case TooShort => PageAt(feed, q.cursor).Some? && |PageAt(feed, q.cursor).value| <= 1
       case _ => PageAt(feed, q.cursor).Some? && |PageAt(feed, q.cursor).value| > 1
  }

  /** A page after the first is requested only right after the page before it, which was scanned in full. */
  predicate PagesChained(feed: Feed, st: Session) {
    && (forall i :: 0 <= i < |st.requests| ==> OutcomeFits(feed, st.requests[i]))
    && (|st.requests| > 0 ==> st.requests[0].cursor.page == 1)
    && (forall i :: 0 < i < |st.requests| && st.requests[i].cursor.page > 1 ==>
          st.requests[i - 1] == Request(st.requests[i].cursor.(page := st.requests[i].cursor.page - 1), Scanned))
  }

  predicate Good(feed: Feed, target: int, st: Session) {
    Bounded(target, st) && Provenance(feed, st) && IdsUnique(feed, st) && Ordered(st) && PagesChained(feed, st)
  }

  /** `st2` extends `st1`: nothing is lost, and every review added has an id not seen in `st1`. */
  predicate Grows(feed: Feed, st1: Session, st2: Session) {
    && st1.reviews <= st2.reviews
    && st1.origins <= st2.origins
    && st1.requests <= st2.requests
    && st1.seen <= st2.seen
    && forall i :: |st1.origins| <= i < |st2.origins| && OriginId(feed, st2.origins[i]).Some? ==>
         OriginId(feed, st2.origins[i]).value !in st1.seen
  }

  /** Every request so far comes before `c` in traversal order. */
  predicate RequestsBefore(st: Session, c: Cursor) {
    forall i :: 0 <= i < |st.requests| ==> CursorBefore(st.requests[i].cursor, c)
  }

  /** Ready to scan entry `k` of the page at `cur`: that page is the last request, marked scanned, and every review so far comes from before entry `k` of it. */
  predicate ScanReady(st: Session, cur: Cursor, k: nat) {
    && |st.requests| > 0
    && st.requests[|st.requests| - 1] == Request(cur, Scanned)
    && forall i :: 0 <= i < |st.origins| ==> OriginBefore(st.origins[i], Origin(cur, k))
  }

  // ---------------------------------------------------------------------
  // The invariant holds at every level

  lemma CursorOrder(a: Cursor, b: Cursor, c: Cursor)
    requires !CursorBefore(b, a) && CursorBefore(b, c)
    ensures CursorBefore(a, c)
  {
  }

  lemma GrowsTrans(feed: Feed, st1: Session, st2: Session, st3: Session)
    requires Grows(feed, st1, st2) && Grows(feed, st2, st3)
    ensures Grows(feed, st1, st3)
  {
    forall i | |st1.origins| <= i < |st3.origins| && OriginId(feed, st3.origins[i]).Some?
      ensures OriginId(feed, st3.origins[i]).value !in st1.seen
    {
      if i < |st2.origins| {
        assert st3.origins[i] == st2.origins[i];
      }
    }
  }

  lemma StartGood(feed: Feed, target: int)
    ensures Good(feed, target, Start)
  {
  }

  /** Appending the review built from entry `k` of the page at `cur` keeps the invariant. */
  lemma AppendGood(feed: Feed, target: int, st: Session, page: seq<FeedEntry>, cur: Cursor, k: nat, r: Review)
    requires Good(feed, target, st) && |st.reviews| < target
    requires ValidCursor(cur) && PageAt(feed, cur) == Some(page) && 1 <= k < |page|
    requires ScanReady(st, cur, k)
    requires page[k].id.Some? ==> page[k].id.value !in st.seen
    requires BuildReview(page[k], Countries[cur.countryIndex]) == Some(r)
    ensures var seen := if page[k].id.Some? then st.seen + {page[k].id.value} else st.seen;
            var next := st.(reviews := st.reviews + [r], seen := seen, origins := st.origins + [Origin(cur, k)]);
            Good(feed, target, next) && Grows(feed, st, next) && ScanReady(next, cur, k + 1)
  {
    var seen := if page[k].id.Some? then st.seen + {page[k].id.value} else st.seen;
    var next := st.(reviews := st.reviews + [r], seen := seen, origins := st.origins + [Origin(cur, k)]);
    assert EntryAt(feed, Origin(cur, k)) == Some(page[k]);
    AppendProvenance(feed, st, next, Origin(cur, k), r);
    AppendIdsUnique(feed, st, next, Origin(cur, k));
    AppendOrdered(st, next, Origin(cur, k));
    AppendReady(feed, st, next, cur, k);
    assert PagesChained(feed, next) by {
      assert next.requests == st.requests;
    }
  }

  lemma AppendReady(feed: Feed, st: Session, next: Session, cur: Cursor, k: nat)
    requires ScanReady(st, cur, k)
    requires next.requests == st.requests && next.origins == st.origins + [Origin(cur, k)]
    requires st.reviews <= next.reviews && st.seen <= next.seen
    requires OriginId(feed, Origin(cur, k)).Some? ==> OriginId(feed, Origin(cur, k)).value !in st.seen
    ensures Grows(feed, st, next) && ScanReady(next, cur, k + 1)
  {
    forall i | 0 <= i < |next.origins|
      ensures OriginBefore(next.origins[i], Origin(cur, k + 1))
    {
      if i < |st.origins| {
        assert next.origins[i] == st.origins[i];
      }
    }
  }

  lemma AppendProvenance(feed: Feed, st: Session, next: Session, o: Origin, r: Review)
    requires Provenance(feed, st)
    requires next.reviews == st.reviews + [r] && next.origins == st.origins + [o]
    requires EntryAt(feed, o).Some? && BuildReview(EntryAt(feed, o).value, Countries[o.cursor.countryIndex]) == Some(r)
    ensures Provenance(feed, next)
  {
    var n := |st.origins|;
    forall i | 0 <= i < |next.origins|
      ensures EntryAt(feed, next.origins[i]).Some?
      ensures BuildReview(EntryAt(feed, next.origins[i]).value, Countries[next.origins[i].cursor.countryIndex]) == Some(next.reviews[i])
    {
      if i < n {
        assert next.origins[i] == st.origins[i] && next.reviews[i] == st.reviews[i];
      }
    }
  }

  lemma AppendIdsUnique(feed: Feed, st: Session, next: Session, o: Origin)
    requires IdsUnique(feed, st)
    requires next.origins == st.origins + [o] && st.seen <= next.seen
    requires OriginId(feed, o).Some? ==> OriginId(feed, o).value in next.seen && OriginId(feed, o).value !in st.seen
    ensures IdsUnique(feed, next)
  {
    var n := |st.origins|;
    forall i | 0 <= i < |next.origins| && OriginId(feed, next.origins[i]).Some?
      ensures OriginId(feed, next.origins[i]).value in next.seen
    {
      if i < n {
        assert next.origins[i] == st.origins[i];
      }
    }
    forall i, j | 0 <= i < j < |next.origins| && OriginId(feed, next.origins[i]).Some?
      ensures OriginId(feed, next.origins[i]) != OriginId(feed, next.origins[j])
    {
      assert next.origins[i] == st.origins[i];
      if j < n {
        assert next.origins[j] == st.origins[j];
      } else {
        assert OriginId(feed, st.origins[i]).value in st.seen;
      }
    }
  }

  lemma AppendOrdered(st: Session, next: Session, o: Origin)
    requires Ordered(st)
    requires next.requests == st.requests && next.origins == st.origins + [o]
    requires forall i :: 0 <= i < |st.origins| ==> OriginBefore(st.origins[i], o)
    requires |st.requests| > 0 && !CursorBefore(st.requests[|st.requests| - 1].cursor, o.cursor)
    ensures Ordered(next)
  {
    var n := |st.origins|;
    forall i, j | 0 <= i < j < |next.origins|
      ensures OriginBefore(next.origins[i], next.origins[j])
    {
      assert next.origins[i] == st.origins[i];
      if j < n {
        assert next.origins[j] == st.origins[j];
      }
    }
    forall i | 0 <= i < |next.origins|
      ensures |next.requests| > 0 && !CursorBefore(next.requests[|next.requests| - 1].cursor, next.origins[i].cursor)
    {
      if i < n {
        assert next.origins[i] == st.origins[i];
      }
    }
  }

  lemma ScanEntriesGood(feed: Feed, page: seq<FeedEntry>, cur: Cursor, k: nat, st: Session, target: int)
    requires Good(feed, target, st) && |st.reviews| < target
    requires ValidCursor(cur) && PageAt(feed, cur) == Some(page) && 1 <= k <= |page|
    requires ScanReady(st, cur, k)
    ensures var st2 := ScanEntries(page, cur, k, st, target).0;
            Good(feed, target, st2) && Grows(feed, st, st2) && st2.requests == st.requests
    decreases |page| - k
  {
    if k < |page| {
      var e := page[k];
      if e.id.Some? && e.id.value in st.seen {
        assert ScanEntries(page, cur, k, st, target) == ScanEntries(page, cur, k + 1, st, target);
        ScanEntriesGood(feed, page, cur, k + 1, st, target);
      } else {
        var seen := if e.id.Some? then st.seen + {e.id.value} else st.seen;
        var built := BuildReview(e, Countries[cur.countryIndex]);
        if built.None? {
          assert ScanEntries(page, cur, k, st, target) == (st.(seen := seen), true);
        } else {
          var next := st.(reviews := st.reviews + [built.value], seen := seen, origins := st.origins + [Origin(cur, k)]);
          AppendGood(feed, target, st, page, cur, k, built.value);
          if |next.reviews| < target {
            assert ScanEntries(page, cur, k, st, target) == ScanEntries(page, cur, k + 1, next, target);
            ScanEntriesGood(feed, page, cur, k + 1, next, target);
            GrowsTrans(feed, st, next, ScanEntries(page, cur, k + 1, next, target).0);
          } else {
            assert ScanEntries(page, cur, k, st, target) == (next, false);
          }
        }
      }
    }
  }

  /** Recording a request that comes after every earlier one, whose outcome fits the feed, and that is chained to its previous page. */
  lemma AddRequestGood(feed: Feed, target: int, st: Session, q: Request)
    requires Good(feed, target, st) && RequestsBefore(st, q.cursor) && OutcomeFits(feed, q)
    requires q.cursor.page > 1 ==>
               |st.requests| > 0 && st.requests[|st.requests| - 1] == Request(q.cursor.(page := q.cursor.page - 1), Scanned)
    ensures var next := st.(requests := st.requests + [q]);
            Good(feed, target, next) && Grows(feed, st, next)
    ensures forall i :: 0 <= i < |st.origins| ==> CursorBefore(st.origins[i].cursor, q.cursor)
  {
    var next := st.(requests := st.requests + [q]);
    forall i | 0 <= i < |st.origins|
      ensures CursorBefore(st.origins[i].cursor, q.cursor)
    {
      CursorOrder(st.origins[i].cursor, st.requests[|st.requests| - 1].cursor, q.cursor);
    }
    assert PagesChained(feed, next) by {
      var n := |st.requests|;
      assert forall i :: 0 <= i < n ==> next.requests[i] == st.requests[i];
      assert next.requests[n] == q;
      forall i | 0 < i < |next.requests| && next.requests[i].cursor.page > 1
        ensures next.requests[i - 1] == Request(next.requests[i].cursor.(page := next.requests[i].cursor.page - 1), Scanned)
      {
        assert next.requests[i - 1] == st.requests[i - 1];
        if i < n {
          assert st.requests[i - 1] == Request(st.requests[i].cursor.(page := st.requests[i].cursor.page - 1), Scanned);
        }
      }
    }
  }

  /** A page whose reading raised: its request is recorded as such, and what was appended before the raise stays. */
  lemma RaisedGood(feed: Feed, target: int, st: Session, scanned: Session, cur: Cursor)
    requires ValidCursor(cur) && PageAt(feed, cur).Some? && |PageAt(feed, cur).value| > 1
    requires Good(feed, target, st) && RequestsBefore(st, cur)
    requires cur.page > 1 ==>
               |st.requests| > 0 && st.requests[|st.requests| - 1] == Request(cur.(page := cur.page - 1), Scanned)
    requires Good(feed, target, scanned) && Grows(feed, st, scanned)
    requires scanned.requests == st.requests + [Request(cur, Scanned)]
    ensures var st2 := scanned.(requests := st.requests + [Request(cur, Raised)]);
            Good(feed, target, st2) && Grows(feed, st, st2)
  {
    var st2 := scanned.(requests := st.requests + [Request(cur, Raised)]);
    var n := |st.requests|;
    assert forall i :: 0 <= i < n ==> st2.requests[i] == scanned.requests[i] == st.requests[i];
    assert st2.requests[n].cursor == scanned.requests[n].cursor == cur;
    assert PagesChained(feed, st2) by {
      forall i | 0 < i < |st2.requests| && st2.requests[i].cursor.page > 1
        ensures st2.requests[i - 1] == Request(st2.requests[i].cursor.(page := st2.requests[i].cursor.page - 1), Scanned)
      {
        assert st2.requests[i - 1] == st.requests[i - 1];
        if i < n {
          assert st.requests[i - 1] == Request(st.requests[i].cursor.(page := st.requests[i].cursor.page - 1), Scanned);
        }
      }
    }
  }

  /** A page with more than one entry: it is recorded as scanned and its entries are read. */
  lemma ScannedPageGood(feed: Feed, target: int, st: Session, entries: seq<FeedEntry>, cur: Cursor)
    requires ValidCursor(cur) && PageAt(feed, cur) == Some(entries) && |entries| > 1
    requires Good(feed, target, st) && |st.reviews| < target && RequestsBefore(st, cur)
    requires cur.page > 1 ==>
               |st.requests| > 0 && st.requests[|st.requests| - 1] == Request(cur.(page := cur.page - 1), Scanned)
    ensures var scanned := ScanEntries(entries, cur, 1, st.(requests := st.requests + [Request(cur, Scanned)]), target).0;
            Good(feed, target, scanned) && Grows(feed, st, scanned)
            && scanned.requests == st.requests + [Request(cur, Scanned)]
  {
    var st1 := st.(requests := st.requests + [Request(cur, Scanned)]);
    AddRequestGood(feed, target, st, Request(cur, Scanned));
    assert ScanReady(st1, cur, 1);
    ScanEntriesGood(feed, entries, cur, 1, st1, target);
    GrowsTrans(feed, st, st1, ScanEntries(entries, cur, 1, st1, target).0);
  }

  lemma RunPagesGood(feed: Feed, ci: nat, si: nat, page: nat, st: Session, target: int)
    requires ci < |Countries| && si < |SortOrders| && 1 <= page
    requires Good(feed, target, st) && RequestsBefore(st, Cursor(ci, si, page))
    requires page > 1 ==>
               |st.requests| > 0 && st.requests[|st.requests| - 1] == Request(Cursor(ci, si, page - 1), Scanned)
    ensures var r := RunPages(feed, ci, si, page, st, target);
            Good(feed, target, r) && Grows(feed, st, r) && RequestsBefore(r, Cursor(ci, si + 1, 1))
    decreases LastPage + 1 - page, 2
  {
    var cur := Cursor(ci, si, page);
    if page > LastPage || |st.reviews| >= target {
      PairBefore(st.requests, [], cur);
    } else if PageAt(feed, cur).None? || |PageAt(feed, cur).value| <= 1 {
      UnscannedPageGood(feed, ci, si, page, st, target);
    } else {
      var st1 := st.(requests := st.requests + [Request(cur, Scanned)]);
      if ScanEntries(PageAt(feed, cur).value, cur, 1, st1, target).1 {
        RaisedPageGood(feed, ci, si, page, st, target);
      } else {
        ScannedPageThenGood(feed, ci, si, page, st, target);
      }
    }
  }

  /** A page scanned in full is followed by the next page of the pair. */
  lemma ScannedPageThenGood(feed: Feed, ci: nat, si: nat, page: nat, st: Session, target: int)
    requires ci < |Countries| && si < |SortOrders| && 1 <= page <= LastPage && |st.reviews| < target
    requires PageAt(feed, Cursor(ci, si, page)).Some? && |PageAt(feed, Cursor(ci, si, page)).value| > 1
    requires Good(feed, target, st) && RequestsBefore(st, Cursor(ci, si, page))
    requires page > 1 ==>
               |st.requests| > 0 && st.requests[|st.requests| - 1] == Request(Cursor(ci, si, page - 1), Scanned)
    requires !ScanEntries(PageAt(feed, Cursor(ci, si, page)).value, Cursor(ci, si, page), 1,
                          st.(requests := st.requests + [Request(Cursor(ci, si, page), Scanned)]), target).1
    ensures var r := RunPages(feed, ci, si, page, st, target);
            Good(feed, target, r) && Grows(feed, st, r) && RequestsBefore(r, Cursor(ci, si + 1, 1))
    decreases LastPage + 1 - page, 1
  {
    var cur := Cursor(ci, si, page);
    var entries := PageAt(feed, cur).value;
    var st1 := st.(requests := st.requests + [Request(cur, Scanned)]);
    ScannedPageGood(feed, target, st, entries, cur);
    var scanned := ScanEntries(entries, cur, 1, st1, target).0;
    NextPageBefore(st.requests, Request(cur, Scanned));
    RunPagesContinues(feed, ci, si, page, st, target);
    NextPageGood(feed, ci, si, page, st, scanned, target);
  }

  /** The traversal of the rest of the pair, from the session left by a page scanned in full. */
  lemma NextPageGood(feed: Feed, ci: nat, si: nat, page: nat, st: Session, scanned: Session, target: int)
    requires ci < |Countries| && si < |SortOrders| && 1 <= page <= LastPage
    requires Good(feed, target, scanned) && Grows(feed, st, scanned)
    requires |scanned.requests| > 0 && scanned.requests[|scanned.requests| - 1] == Request(Cursor(ci, si, page), Scanned)
    requires RequestsBefore(scanned, Cursor(ci, si, page + 1))
    requires RunPages(feed, ci, si, page, st, target) == RunPages(feed, ci, si, page + 1, scanned, target)
    ensures var r := RunPages(feed, ci, si, page, st, target);
            Good(feed, target, r) && Grows(feed, st, r) && RequestsBefore(r, Cursor(ci, si + 1, 1))
    decreases LastPage + 1 - page, 0
  {
    RunPagesGood(feed, ci, si, page + 1, scanned, target);
    GrowsTrans(feed, st, scanned, RunPages(feed, ci, si, page + 1, scanned, target));
  }

  /** After a page scanned in full, the traversal goes on with the next page from the scanned session. */
  lemma RunPagesContinues(feed: Feed, ci: nat, si: nat, page: nat, st: Session, target: int)
    requires ci < |Countries| && si < |SortOrders| && 1 <= page <= LastPage && |st.reviews| < target
    requires PageAt(feed, Cursor(ci, si, page)).Some? && |PageAt(feed, Cursor(ci, si, page)).value| > 1
    requires !ScanEntries(PageAt(feed, Cursor(ci, si, page)).value, Cursor(ci, si, page), 1,
                          st.(requests := st.requests + [Request(Cursor(ci, si, page), Scanned)]), target).1
    ensures RunPages(feed, ci, si, page, st, target)
            == RunPages(feed, ci, si, page + 1,
                        ScanEntries(PageAt(feed, Cursor(ci, si, page)).value, Cursor(ci, si, page), 1,
                                    st.(requests := st.requests + [Request(Cursor(ci, si, page), Scanned)]), target).0,
                        target)
  {
  }

  /** A page the feed does not serve, or serves with at most one entry, ends the pair. */
  lemma UnscannedPageGood(feed: Feed, ci: nat, si: nat, page: nat, st: Session, target: int)
    requires ci < |Countries| && si < |SortOrders| && 1 <= page <= LastPage && |st.reviews| < target
    requires PageAt(feed, Cursor(ci, si, page)).None? || |PageAt(feed, Cursor(ci, si, page)).value| <= 1
    requires Good(feed, target, st) && RequestsBefore(st, Cursor(ci, si, page))
    requires page > 1 ==>
               |st.requests| > 0 && st.requests[|st.requests| - 1] == Request(Cursor(ci, si, page - 1), Scanned)
    ensures var r := RunPages(feed, ci, si, page, st, target);
            Good(feed, target, r) && Grows(feed, st, r) && RequestsBefore(r, Cursor(ci, si + 1, 1))
  {
    var cur := Cursor(ci, si, page);
    var q := if PageAt(feed, cur).None? then Request(cur, Failed) else Request(cur, TooShort);
    assert RunPages(feed, ci, si, page, st, target) == st.(requests := st.requests + [q]);
    AddRequestGood(feed, target, st, q);
    PairBefore(st.requests, [q], cur);
  }

  /** A page whose scan raised ends the pair, keeping what the scan appended. */
  lemma RaisedPageGood(feed: Feed, ci: nat, si: nat, page: nat, st: Session, target: int)
    requires ci < |Countries| && si < |SortOrders| && 1 <= page <= LastPage && |st.reviews| < target
    requires PageAt(feed, Cursor(ci, si, page)).Some? && |PageAt(feed, Cursor(ci, si, page)).value| > 1
    requires Good(feed, target, st) && RequestsBefore(st, Cursor(ci, si, page))
    requires page > 1 ==>
               |st.requests| > 0 && st.requests[|st.requests| - 1] == Request(Cursor(ci, si, page - 1), Scanned)
    requires ScanEntries(PageAt(feed, Cursor(ci, si, page)).value, Cursor(ci, si, page), 1,
                         st.(requests := st.requests + [Request(Cursor(ci, si, page), Scanned)]), target).1
    ensures var r := RunPages(feed, ci, si, page, st, target);
            Good(feed, target, r) && Grows(feed, st, r) && RequestsBefore(r, Cursor(ci, si + 1, 1))
  {
    var cur := Cursor(ci, si, page);
    var entries := PageAt(feed, cur).value;
    var st1 := st.(requests := st.requests + [Request(cur, Scanned)]);
    ScannedPageGood(feed, target, st, entries, cur);
    var scanned := ScanEntries(entries, cur, 1, st1, target).0;
    RaisedGood(feed, target, st, scanned, cur);
    PairBefore(st.requests, [Request(cur, Raised)], cur);
    assert RunPages(feed, ci, si, page, st, target) == scanned.(requests := st.requests + [Request(cur, Raised)]);
  }

  /** Requests before page `cur` and at most requests for `cur` itself all come before the next pair. */
  lemma PairBefore(requests: seq<Request>, added: seq<Request>, cur: Cursor)
    requires forall i :: 0 <= i < |requests| ==> CursorBefore(requests[i].cursor, cur)
    requires forall i :: 0 <= i < |added| ==> added[i].cursor == cur
    ensures forall i :: 0 <= i < |requests + added| ==>
              CursorBefore((requests + added)[i].cursor, Cursor(cur.countryIndex, cur.sortIndex + 1, 1))
  {
  }

  /** After a request for page `q.cursor`, every request comes before the following page. */
  lemma NextPageBefore(requests: seq<Request>, q: Request)
    requires forall i :: 0 <= i < |requests| ==> CursorBefore(requests[i].cursor, q.cursor)
    ensures forall i :: 0 <= i < |requests + [q]| ==>
              CursorBefore((requests + [q])[i].cursor, q.cursor.(page := q.cursor.page + 1))
  {
  }

  lemma RunSortsGood(feed: Feed, ci: nat, si: nat, st: Session, target: int)
    requires ci < |Countries|
    requires Good(feed, target, st) && RequestsBefore(st, Cursor(ci, si, 1))
    ensures var r := RunSorts(feed, ci, si, st, target);
            Good(feed, target, r) && Grows(feed, st, r) && RequestsBefore(r, Cursor(ci + 1, 0, 1))
    decreases |SortOrders| - si
  {
    if si >= |SortOrders| || |st.reviews| >= target {
      assert forall c :: CursorBefore(c, Cursor(ci, si, 1)) ==> CursorBefore(c, Cursor(ci + 1, 0, 1));
    } else {
      var st1 := RunPages(feed, ci, si, 1, st, target);
      RunPagesGood(feed, ci, si, 1, st, target);
      RunSortsGood(feed, ci, si + 1, st1, target);
      GrowsTrans(feed, st, st1, RunSorts(feed, ci, si + 1, st1, target));
    }
  }

  lemma RunCountriesGood(feed: Feed, ci: nat, st: Session, target: int)
    requires Good(feed, target, st) && RequestsBefore(st, Cursor(ci, 0, 1))
    ensures var r := RunCountries(feed, ci, st, target);
            Good(feed, target, r) && Grows(feed, st, r)
    decreases |Countries| - ci
  {
    if ci < |Countries| && |st.reviews| < target {
      var st1 := RunSorts(feed, ci, 0, st, target);
      RunSortsGood(feed, ci, 0, st, target);
      RunCountriesGood(feed, ci + 1, st1, target);
      GrowsTrans(feed, st, st1, RunCountries(feed, ci + 1, st1, target));
    }
  }

  /** The traversal keeps every part of the invariant. */
  lemma CollectIsGood(feed: Feed, target: int)
    ensures Good(feed, target, Collect(feed, target))
  {
    RunCountriesGood(feed, 0, Start, target);
  }

  // ---------------------------------------------------------------------
  // What the collected list is

  /** The source's final `[:target_count]` never cuts anything: the traversal stops at the target. */
  lemma CollectWithinTarget(feed: Feed, target: int)
    ensures |Collect(feed, target).reviews| <= if target < 0 then 0 else target
    ensures PyPrefix(Collect(feed, target).reviews, target) == Collect(feed, target).reviews
  {
    CollectIsGood(feed, target);
    PyPrefixNoOp(Collect(feed, target).reviews, target);
  }

  /**
   * Every collected review was built from an entry after the first one of
   * a page the feed served for one of the six countries and two sort
   * orders, carries that country, and a date of at most 10 characters.
   */
  lemma CollectedFromFeed(feed: Feed, target: int, i: nat)
    requires i < |Collect(feed, target).reviews|
    ensures |Collect(feed, target).origins| == |Collect(feed, target).reviews|
    ensures var st := Collect(feed, target);
            var o := st.origins[i];
            && o.cursor.countryIndex < |Countries| && o.cursor.sortIndex < |SortOrders|
            && 1 <= o.cursor.page <= LastPage
            && var page := feed(Countries[o.cursor.countryIndex], SortOrders[o.cursor.sortIndex], o.cursor.page);
               && page.Some? && 1 <= o.index < |page.value|
               && BuildReview(page.value[o.index], Countries[o.cursor.countryIndex]) == Some(st.reviews[i])
               && st.reviews[i].country == Some(Countries[o.cursor.countryIndex])
               && st.reviews[i].date.Some? && |st.reviews[i].date.value| <= 10
  {
    CollectIsGood(feed, target);
  }

  /** An entry whose rating text `int()` rejects is never collected: its scan raises instead. */
  lemma CollectedRatingsParse(feed: Feed, target: int, i: nat)
    requires i < |Collect(feed, target).reviews|
    ensures |Collect(feed, target).origins| == |Collect(feed, target).reviews|
    ensures EntryAt(feed, Collect(feed, target).origins[i]).Some?
    ensures var e := EntryAt(feed, Collect(feed, target).origins[i]).value;
            e.rating.Some? ==> ParseInt(e.rating.value).Some? && ParseInt(e.rating.value) == Collect(feed, target).reviews[i].rating
  {
    CollectedFromFeed(feed, target, i);
  }

  /** No two collected reviews come from entries with the same id. */
  lemma CollectedIdsDistinct(feed: Feed, target: int, i: nat, j: nat)
    requires i < j < |Collect(feed, target).origins|
    requires OriginId(feed, Collect(feed, target).origins[i]).Some?
    ensures OriginId(feed, Collect(feed, target).origins[i]) != OriginId(feed, Collect(feed, target).origins[j])
  {
    CollectIsGood(feed, target);
  }

  /** Reviews appear in traversal order: by country, then sort order, then page, then position on the page. */
  lemma CollectedInTraversalOrder(feed: Feed, target: int, i: nat, j: nat)
    requires i < j < |Collect(feed, target).origins|
    ensures OriginBefore(Collect(feed, target).origins[i], Collect(feed, target).origins[j])
  {
    CollectIsGood(feed, target);
  }

  /** No page is requested twice, and requests follow traversal order. */
  lemma RequestsInTraversalOrder(feed: Feed, target: int, i: nat, j: nat)
    requires i < j < |Collect(feed, target).requests|
    ensures CursorBefore(Collect(feed, target).requests[i].cursor, Collect(feed, target).requests[j].cursor)
    ensures Collect(feed, target).requests[i].cursor != Collect(feed, target).requests[j].cursor
  {
    CollectIsGood(feed, target);
  }

  /** Only the last request of a (country, sort order) pair can end other than scanned: a failed, short or raising page ends its pair. */
  lemma {:induction false} EarlierOfPairScanned(feed: Feed, target: int, st: Session, i: nat, j: nat)
    requires Good(feed, target, st)
    requires i < j < |st.requests| && SamePair(st.requests[i].cursor, st.requests[j].cursor)
    ensures st.requests[i].outcome == Scanned
    decreases j
  {
    assert CursorBefore(st.requests[i].cursor, st.requests[j].cursor);
    assert st.requests[j - 1] == Request(st.requests[j].cursor.(page := st.requests[j].cursor.page - 1), Scanned);
    if i < j - 1 {
      EarlierOfPairScanned(feed, target, st, i, j - 1);
    }
  }

  lemma AbandonedPairEnds(feed: Feed, target: int, i: nat, j: nat)
    requires i < j < |Collect(feed, target).requests|
    requires SamePair(Collect(feed, target).requests[i].cursor, Collect(feed, target).requests[j].cursor)
    ensures Collect(feed, target).requests[i].outcome == Scanned
  {
    CollectIsGood(feed, target);
    EarlierOfPairScanned(feed, target, Collect(feed, target), i, j);
  }

  // ---------------------------------------------------------------------
  // Short of the target, the traversal exhausts the feed

  /** Every scanned page before the last request, short of page 10, is followed by the next page of its pair. */
  predicate Followed(st: Session) {
    forall i :: 0 < i < |st.requests| && st.requests[i - 1].outcome == Scanned && st.requests[i - 1].cursor.page < LastPage ==>
      st.requests[i].cursor == st.requests[i - 1].cursor.(page := st.requests[i - 1].cursor.page + 1)
  }

  /** The last request ended its pair. */
  predicate Closed(st: Session) {
    |st.requests| > 0 ==>
      st.requests[|st.requests| - 1].outcome != Scanned || st.requests[|st.requests| - 1].cursor.page == LastPage
  }

  predicate Tried(st: Session, c: Cursor) {
    exists i :: 0 <= i < |st.requests| && st.requests[i].cursor == c
  }

  lemma AppendFollowed(st: Session, q: Request)
    requires Followed(st)
    requires |st.requests| > 0 && st.requests[|st.requests| - 1].outcome == Scanned && st.requests[|st.requests| - 1].cursor.page < LastPage ==>
               q.cursor == st.requests[|st.requests| - 1].cursor.(page := st.requests[|st.requests| - 1].cursor.page + 1)
    ensures Followed(st.(requests := st.requests + [q]))
  {
    var r := st.requests + [q];
    forall i | 0 < i < |r| && r[i - 1].outcome == Scanned && r[i - 1].cursor.page < LastPage
      ensures r[i].cursor == r[i - 1].cursor.(page := r[i - 1].cursor.page + 1)
    {
      assert r[i - 1] == st.requests[i - 1];
      if i < |st.requests| {
        assert r[i] == st.requests[i];
      }
    }
  }

  lemma TriedKept(st: Session, st2: Session)
    requires st.requests <= st2.requests
    ensures forall c :: Tried(st, c) ==> Tried(st2, c)
  {
    forall c | Tried(st, c) ensures Tried(st2, c) {
      var i :| 0 <= i < |st.requests| && st.requests[i].cursor == c;
      assert st2.requests[i] == st.requests[i];
    }
  }

  lemma ScanKeepsRequests(page: seq<FeedEntry>, cur: Cursor, k: nat, st: Session, target: int)
    requires ValidCursor(cur) && 1 <= k <= |page|
    ensures ScanEntries(page, cur, k, st, target).0.requests == st.requests
    ensures |st.reviews| <= |ScanEntries(page, cur, k, st, target).0.reviews|
    decreases |page| - k
  {
    if k < |page| {
      var e := page[k];
      var seen := if e.id.Some? then st.seen + {e.id.value} else st.seen;
      var built := BuildReview(e, Countries[cur.countryIndex]);
      if !(e.id.Some? && e.id.value in st.seen) && built.Some? {
        ScanKeepsRequests(page, cur, k + 1, st.(reviews := st.reviews + [built.value], seen := seen, origins := st.origins + [Origin(cur, k)]), target);
      } else {
        ScanKeepsRequests(page, cur, k + 1, st, target);
      }
    }
  }

  lemma RunPagesComplete(feed: Feed, ci: nat, si: nat, page: nat, st: Session, target: int)
    requires ci < |Countries| && si < |SortOrders| && 1 <= page <= LastPage + 1
    requires page > 1 ==>
               |st.requests| > 0 && st.requests[|st.requests| - 1] == Request(Cursor(ci, si, page - 1), Scanned)
    requires page == 1 ==> Closed(st)
    requires Followed(st)
    ensures var r := RunPages(feed, ci, si, page, st, target);
            && st.requests <= r.requests && |st.reviews| <= |r.reviews|
            && (|r.reviews| < target ==>
                  && Followed(r) && Closed(r)
                  && (page <= LastPage ==> |r.requests| > |st.requests| && r.requests[|st.requests|].cursor == Cursor(ci, si, page)))
    decreases LastPage + 1 - page
  {
    if page <= LastPage && |st.reviews| < target {
      var cur := Cursor(ci, si, page);
      var fetched := PageAt(feed, cur);
      if fetched.None? {
        AppendFollowed(st, Request(cur, Failed));
      } else if |fetched.value| <= 1 {
        AppendFollowed(st, Request(cur, TooShort));
      } else {
        ScannedPageComplete(feed, ci, si, page, st, target, fetched.value);
      }
    }
  }

  lemma ScannedPageComplete(feed: Feed, ci: nat, si: nat, page: nat, st: Session, target: int, entries: seq<FeedEntry>)
    requires ci < |Countries| && si < |SortOrders| && 1 <= page <= LastPage && |st.reviews| < target
    requires PageAt(feed, Cursor(ci, si, page)) == Some(entries) && |entries| > 1
    requires page > 1 ==>
               |st.requests| > 0 && st.requests[|st.requests| - 1] == Request(Cursor(ci, si, page - 1), Scanned)
    requires page == 1 ==> Closed(st)
    requires Followed(st)
    ensures var r := RunPages(feed, ci, si, page, st, target);
            && st.requests <= r.requests && |st.reviews| <= |r.reviews|
            && (|r.reviews| < target ==>
                  && Followed(r) && Closed(r)
                  && |r.requests| > |st.requests| && r.requests[|st.requests|].cursor == Cursor(ci, si, page))
    decreases LastPage + 1 - page, 2
  {
    var cur := Cursor(ci, si, page);
    var st1 := st.(requests := st.requests + [Request(cur, Scanned)]);
    ScanKeepsRequests(entries, cur, 1, st1, target);
    if ScanEntries(entries, cur, 1, st1, target).1 {
      var scanned := ScanEntries(entries, cur, 1, st1, target).0;
      AppendFollowed(st, Request(cur, Raised));
      assert RunPages(feed, ci, si, page, st, target) == scanned.(requests := st.requests + [Request(cur, Raised)]);
    } else {
      AppendFollowed(st, Request(cur, Scanned));
      FullPageComplete(feed, ci, si, page, st, target, entries);
    }
  }

  /** A page read to its end: the traversal goes on with the next page. */
  lemma FullPageComplete(feed: Feed, ci: nat, si: nat, page: nat, st: Session, target: int, entries: seq<FeedEntry>)
    requires ci < |Countries| && si < |SortOrders| && 1 <= page <= LastPage && |st.reviews| < target
    requires PageAt(feed, Cursor(ci, si, page)) == Some(entries) && |entries| > 1
    requires Followed(st.(requests := st.requests + [Request(Cursor(ci, si, page), Scanned)]))
    requires !ScanEntries(entries, Cursor(ci, si, page), 1,
                          st.(requests := st.requests + [Request(Cursor(ci, si, page), Scanned)]), target).1
    ensures var r := RunPages(feed, ci, si, page, st, target);
            && st.requests <= r.requests && |st.reviews| <= |r.reviews|
            && (|r.reviews| < target ==>
                  && Followed(r) && Closed(r)
                  && |r.requests| > |st.requests| && r.requests[|st.requests|].cursor == Cursor(ci, si, page))
    decreases LastPage + 1 - page, 1
  {
    var cur := Cursor(ci, si, page);
    var st1 := st.(requests := st.requests + [Request(cur, Scanned)]);
    ScanKeepsRequests(entries, cur, 1, st1, target);
    var scanned := ScanEntries(entries, cur, 1, st1, target).0;
    assert Followed(scanned) by { assert scanned.requests == st1.requests; }
    RunPagesContinues(feed, ci, si, page, st, target);
    NextPageComplete(feed, ci, si, page, st, scanned, target);
  }

  /** The rest of the pair, from the session left by a page read to its end. */
  lemma NextPageComplete(feed: Feed, ci: nat, si: nat, page: nat, st: Session, scanned: Session, target: int)
    requires ci < |Countries| && si < |SortOrders| && 1 <= page <= LastPage
    requires scanned.requests == st.requests + [Request(Cursor(ci, si, page), Scanned)]
    requires |st.reviews| <= |scanned.reviews| && Followed(scanned)
    requires RunPages(feed, ci, si, page, st, target) == RunPages(feed, ci, si, page + 1, scanned, target)
    ensures var r := RunPages(feed, ci, si, page, st, target);
            && st.requests <= r.requests && |st.reviews| <= |r.reviews|
            && (|r.reviews| < target ==>
                  && Followed(r) && Closed(r)
                  && |r.requests| > |st.requests| && r.requests[|st.requests|].cursor == Cursor(ci, si, page))
    decreases LastPage + 1 - page, 0
  {
    RunPagesComplete(feed, ci, si, page + 1, scanned, target);
    var r := RunPages(feed, ci, si, page + 1, scanned, target);
    assert r.requests[|st.requests|] == scanned.requests[|st.requests|];
  }

  lemma RunSortsComplete(feed: Feed, ci: nat, si: nat, st: Session, target: int)
    requires ci < |Countries| && (|st.reviews| < target ==> Closed(st) && Followed(st))
    ensures var r := RunSorts(feed, ci, si, st, target);
            && st.requests <= r.requests && |st.reviews| <= |r.reviews|
            && (|r.reviews| < target ==>
                  && Followed(r) && Closed(r)
                  && forall s :: si <= s < |SortOrders| ==> Tried(r, Cursor(ci, s, 1)))
    decreases |SortOrders| - si
  {
    if si < |SortOrders| && |st.reviews| < target {
      var st1 := RunPages(feed, ci, si, 1, st, target);
      RunPagesComplete(feed, ci, si, 1, st, target);
      RunSortsComplete(feed, ci, si + 1, st1, target);
      var r := RunSorts(feed, ci, si + 1, st1, target);
      if |r.reviews| < target {
        assert Tried(st1, Cursor(ci, si, 1)) by {
          assert st1.requests[|st.requests|].cursor == Cursor(ci, si, 1);
        }
        TriedKept(st1, r);
      }
    }
  }

  lemma RunCountriesComplete(feed: Feed, ci: nat, st: Session, target: int)
    requires |st.reviews| < target ==> Closed(st) && Followed(st)
    ensures var r := RunCountries(feed, ci, st, target);
            && st.requests <= r.requests && |st.reviews| <= |r.reviews|
            && (|r.reviews| < target ==>
                  && Followed(r) && Closed(r)
                  && forall c, s :: ci <= c < |Countries| && 0 <= s < |SortOrders| ==> Tried(r, Cursor(c, s, 1)))
    decreases |Countries| - ci
  {
    if ci < |Countries| && |st.reviews| < target {
      var st1 := RunSorts(feed, ci, 0, st, target);
      RunSortsComplete(feed, ci, 0, st, target);
      RunCountriesComplete(feed, ci + 1, st1, target);
      var r := RunCountries(feed, ci + 1, st1, target);
      if |r.reviews| < target {
        TriedKept(st1, r);
      }
    }
  }

  /**
   * Short of the target, the traversal gives up on nothing: every country
   * and sort order was requested from page 1, every page read in full
   * before page 10 was followed by the next one, and the last request
   * ended its pair.
   */
  lemma CollectExhaustsFeed(feed: Feed, target: int)
    requires |Collect(feed, target).reviews| < target
    ensures forall c, s :: 0 <= c < |Countries| && 0 <= s < |SortOrders| ==> Tried(Collect(feed, target), Cursor(c, s, 1))
    ensures Followed(Collect(feed, target)) && Closed(Collect(feed, target))
  {
    RunCountriesComplete(feed, 0, Start, target);
  }
}

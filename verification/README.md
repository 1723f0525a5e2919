# VoC review collector — a Dafny model of its core

The application collects customer reviews ("VoC", voice of the customer) of a
mobile app from two stores and turns them into a text report. This project
models the part of `app.py` that does the work:

- `clean_html_text` turns review text carrying HTML entities and tags into
  plain text (module `TextClean`).
- `get_app_id_from_url` and `get_package_from_url` find the App Store id or
  the Play Store package name in what the user typed (module `Identifiers`).
- `fetch_ios_reviews` walks the App Store review feed: 6 countries, 2 sort
  orders and pages 1 to 10. It skips the first entry of every page, skips
  ids already seen, and stops at the requested count. The module
  `FeedSpec` defines the traversal as recursive functions and proves that
  everything it collects comes from the feed. `FeedComplete` proves the
  converse: short of the target, every eligible entry is collected.
  `FeedRaised` proves that an entry whose rating raised keeps its id marked
  seen, so no copy of that review is collected later in the call.
  `FeedDriver` contains the three nested loops, proved to compute exactly
  that traversal.
- `fetch_android_reviews` asks the Play Store scraper for batches of at most
  200 reviews and passes the continuation token along. `PlaySpec` is the
  specification and `PlayDriver` is the `while` loop.
- `generate_report` writes the report: a header, one block per review, and
  a footer. `Report` contains the line-by-line specification, its
  properties, and the `+=` loop.
- On the result page, the preview filters the reviews by an exact rating,
  optionally sorts them stably by rating, and shows the first 50 (module
  `Preview`).

Shared pieces:
- `Chars`: Python's `str.isspace`, `strip` and `upper`.
- `Numbers`: `int()` on text, `str()` of an integer, and zero-padded fields.
- `Records`: the review record, the progress-callback trace, and the `[:n]` slice.
- `Wrappers`: `Option`.

The network is a parameter of the model, not part of it:
- The App Store feed is a function from (country, sort order, page) to an
  optional list of entries. `None` stands for a non-200 status, a transport
  error, or unparsable XML.
- The Play Store scraper is a function from a query to either a batch
  (reviews and the next token) or `Raised`.
- Whether the scraper library can be imported is a boolean.
- The clock is a `Moment` value.

The model follows the code on these points:
- `clean_html_text` is not idempotent. A second pass decodes entities again
  (`TextClean.CleanTwiceDecodesTwice`).
- Ratings are not clamped to 0..5. `int()` of the feed's rating text and the
  scraper's `score` are taken as they are.
- The resolvers return `None` rather than raising an error for an
  unrecognised identifier.
- When the Play Store collection fails, the result is an empty list and an
  error flag, not an exception to the caller.
- The report prints `-` for content only when a review has no content at
  all. Empty content prints empty.

## Model

| member | source | states |
|---|---|---|
| TextClean.CleanHtmlTextShape | app.py:93-119 | `None` and the empty string come back unchanged. Any other text comes back cleaned: it contains no `<`…`>` tag, no two adjacent spaces, no three consecutive newlines, and no whitespace at either end |
| TextClean.CleanShape | app.py:99-117 | The whole rewrite chain, on any input, yields text that is tag-free, has no double space or triple newline, and is trimmed |
| TextClean.StripTagsGuarded | app.py:108 | After `<[^>]+>` is removed, every `<` left is harmless: none starts a tag |
| TextClean.GuardedTagFree | app.py:108 | Text in which every `<` is harmless contains no tag |
| TextClean.SpacesCollapsed | app.py:111 | `re.sub(' +', ' ', s)` leaves no two adjacent spaces |
| TextClean.NewlinesKeepSpacesApart | app.py:114 | Capping newline runs does not bring two spaces together |
| TextClean.NewlinesCapped | app.py:114 | `re.sub('\n{3,}', '\n\n', s)` leaves no three consecutive newlines |
| TextClean.SubAvoids | app.py:102-114 | A substitution cannot introduce a character found in neither the input nor the replacement |
| TextClean.SubKeepsFirst | app.py:111-114 | The space and newline substitutions keep the first character of non-empty text |
| TextClean.UnescapePlain | app.py:99 | Text without `&` is not changed by entity decoding |
| TextClean.TagSubPlain | app.py:102-108 | The three tag substitutions do not change text without `<` |
| TextClean.SpaceRunPlain | app.py:111 | Collapsing spaces does not change text without a double space |
| TextClean.CleanKeepsPlainText | app.py:99-117 | Text that is already clean (no `&`, no `<`, no double space, no triple newline, trimmed) is returned unchanged |
| TextClean.CleanAfterDecode | app.py:99-117 | When decoding alone already gives clean text without `<`, the result is the decoded text |
| TextClean.CleanTwiceDecodesTwice | app.py:99 | Cleaning `&amp;lt;` gives `&lt;`, and cleaning that again gives `<`: the cleaner is not idempotent |
| Identifiers.FindPattern | app.py:128 | The first position at or after `from` where the literal is followed by a character of the class; none exists before it. `None` exactly when there is no such position |
| Identifiers.Search | app.py:128-134 | `re.search(lit + '(cls+)')` succeeds exactly when the pattern occurs. The group is the maximal class run after the leftmost occurrence |
| Identifiers.AppIdResolved | app.py:123-136 | An all-digit input is returned as is. Otherwise the result is the digit run after the leftmost `/id<digit>`, else after the leftmost `id=<digit>`, else `None` (exactly when neither occurs). Any result is a non-empty digit string that occurs in the input |
| Identifiers.PackageResolved | app.py:212-221 | An input with a `.` and no `/` is returned verbatim. Otherwise the result is the maximal `[A-Za-z0-9._]+` run after the leftmost `id=`, `None` exactly when there is none. Any result occurs in the input |
| Chars.Strip | app.py:117 | `strip()` returns the slice left after removing whitespace at both ends: it is trimmed, and everything cut off is whitespace |
| Chars.StripTrimmed | app.py:117 | Stripping text with no whitespace at its ends changes nothing |
| Chars.Upper | app.py:310 | `upper()` maps `a`-`z` to `A`-`Z` and keeps every other character, at the same length |
| Numbers.ParseInt | app.py:190 | `int(text)` succeeds only on text that is not all whitespace |
| Numbers.ParseIntDigitLimit | app.py:190 | `int()` accepts a plain digit string exactly when it has at most 4300 digits (Python's default `sys.get_int_max_str_digits()`), and then reads it as its decimal value |
| Numbers.ParseIntToString | app.py:190 | `int(str(n)) == n` for every integer of at most 4300 digits: printing and parsing are inverse |
| Numbers.NatToString | app.py:293 | The decimal digits of a count: non-empty, all digits, no leading zero |
| Numbers.NatToStringValue | app.py:293 | The printed digits have the value of the number printed |
| Numbers.IntToString | app.py:302 | `str(n)` is non-empty, and all digits when `n` is not negative |
| Numbers.Fixed | app.py:283 | A zero-padded field is exactly `width` digits |
| Numbers.FixedValue | app.py:283 | A zero-padded field has the value of any number that fits its width |
| Records.ProgressTrace | app.py:197-198 | The progress callback receives `(1, target)`, `(2, target)`, …, `(n, target)` in append order |
| Records.PyPrefix | app.py:208 | `s[:n]` is a prefix of `s`. Its length follows Python's rules for a negative `n` and for an `n` past the end |
| FeedSpec.DatePart | app.py:191 | `updated[:10]` is a prefix of the text of length `min(10, len)` |
| FeedSpec.BuildReview | app.py:180-193 | Building a record fails exactly when a rating is present and `int()` rejects it. The record carries the current country, and its date is a prefix of `updated` of at most 10 characters. A present rating is the parsed value |
| FeedSpec.CollectIsGood | app.py:139-208 | The traversal's whole invariant holds at the end: provenance, unique ids, traversal order, chained pages, bounded length |
| FeedSpec.CollectWithinTarget | app.py:195-208 | The collected list never exceeds the target, so the final `[:target_count]` changes nothing |
| FeedSpec.CollectedFromFeed | app.py:155-195 | Every collected review comes from entry 1 or later of a page the feed served, for a valid country, sort order and page 1..10. It is that entry built for that page's country, with a date of at most 10 characters |
| FeedSpec.CollectedRatingsParse | app.py:183-206 | An entry whose rating text `int()` rejects is never collected. A collected review with a rating has the parsed value |
| FeedSpec.CollectedIdsDistinct | app.py:173-178 | No two collected reviews come from entries with the same id |
| FeedComplete.ScanEntriesComplete | app.py:172-201 | A page scan that neither raised nor reached the target collects every entry that has no id, or whose id was not seen before and does not occur earlier on the page |
| FeedComplete.ScanSeenWithin | app.py:173-178 | A page scan only adds reviews, and it marks as seen only the ids of the entries it reads |
| FeedComplete.CollectTakesEligible | app.py:139-208 | Short of the target, for every page read to its end, each entry after the first is collected, built for its page's country, when it has no id or its id occurs neither on a page requested before nor earlier on the same page. Entries without an id are never deduplicated |
| FeedRaised.ScanDrops | app.py:171-199 | A page scan adds only reviews whose ids were not yet seen and keeps every collected id marked seen. When it raises, the entry that raised has its id marked seen and no review collected so far has that id |
| FeedRaised.RaisedEntryNeverCollected | app.py:172-206 | Every page whose reading raised has an entry after the first whose rating `int()` rejects. That entry's id, because it was added to `seen_ids` before the fields were read, is among the seen ids when the call ends, and no collected review from any page, country or sort order comes from an entry with that id |
| FeedSpec.CollectedInTraversalOrder | app.py:144-172 | Collected reviews appear in traversal order: country, then sort order, then page, then entry |
| FeedSpec.RequestsInTraversalOrder | app.py:144-162 | Pages are requested in strictly increasing order (kr, us, jp, gb, au, ca, then mostrecent, mosthelpful, then pages 1..10), none twice |
| FeedSpec.EarlierOfPairScanned | app.py:161-206 | In any session that satisfies the invariant, a page that another request of the same (country, sort) follows was scanned in full |
| FeedSpec.AbandonedPairEnds | app.py:161-206 | A failed fetch, a page of at most one entry, or a raised exception is the last request of its (country, sort) pair |
| FeedSpec.CollectExhaustsFeed | app.py:147-206 | Short of the target, every (country, sort) pair was tried from page 1. A page scanned in full is followed by the next page up to page 10, and the last request ended its pair |
| FeedSpec.RunPagesGood | app.py:155-206 | One (country, sort) pair keeps the invariant, only extends the session, and requests only cursors before the next pair |
| FeedSpec.ScanEntriesGood | app.py:172-201 | Scanning a page keeps the invariant, sends no request, and only extends what was collected, with ids not seen before |
| FeedSpec.RunPagesComplete | app.py:155-206 | Within a pair, short of the target, a page scanned in full is followed by the next page, and the last request ends the pair |
| FeedDriver.ScanPage | app.py:172-201 | The entry loop (skip the first entry, skip seen ids, mark the id seen before reading the fields, stop at the target, a bad rating raises) computes `ScanEntries` exactly, including the seen set and the progress calls |
| FeedDriver.ScanPages | app.py:155-206 | The page loop for one (country, sort) computes `RunPages` exactly |
| FeedDriver.FetchIosReviews | app.py:139-208 | The three nested loops return exactly the reviews of `Collect`, and the progress calls are `(1,T)…(n,T)` |
| PlaySpec.FormatDate | app.py:256 | `strftime('%Y-%m-%d')` is 10 characters with dashes at positions 4 and 7 |
| PlaySpec.FormatDateFields | app.py:256 | The three fields of the date read back as the year, the month and the day |
| PlaySpec.QueryFor | app.py:233-242 | Each request asks for `min(200, missing)` newest Korean reviews of the package with the current token. The count lies in 1..200 while reviews are missing |
| PlaySpec.BuildAndroid | app.py:249-257 | A Play Store record has no title or country. Its content is `clean_html_text` of the raw content: clean shape, and empty when empty. Author defaults to `익명` and rating to 0. The date is 10 characters, or empty when absent |
| PlaySpec.ConvertedShape | app.py:247-258 | A batch gives one record per item, in order. Each record has no title or region, its author and rating are the item's user name and score or their defaults `익명` and 0, and its content is cleaned (tag-free, trimmed) |
| PlaySpec.ConvertedAppend | app.py:247-258 | Converting two batches one after the other is converting them together, so the list keeps delivery order across batches |
| PlaySpec.Take | app.py:263-271 | Taking `n` gives a prefix of length `min(n, len)`, empty for `n <= 0` |
| PlaySpec.CrawlFinishes | app.py:232-267 | The loop from any state ends in a state where the calls were made in turn, every call but the last was productive, and the result is the converted delivered reviews cut at the target |
| PlaySpec.FetchAndroidFinishes | app.py:224-278 | Without the library the result is an empty list with an error. Otherwise the crawl finishes as above |
| PlaySpec.AndroidCalls | app.py:232-242 | Call `i` asks for the package in `ko`/`kr`, newest first, for `min(200, target − delivered so far)` reviews (between 1 and 200). The first call has no token; every later call carries the token of the previous, productive reply |
| PlaySpec.AndroidResult | app.py:224-278 | At most `target` reviews and at most `target` calls. An error exactly when the library is missing or the last call raised, and then no reviews at all. Otherwise the reviews are the delivered ones converted, in delivery order and without dedup, cut at the target. A result short of the target means the last batch was empty or had no token |
| PlayDriver.FetchAndroidReviews | app.py:224-278 | The `while` loop returns exactly the reviews, error flag and calls of `FetchAndroid`, with progress calls `(1,T)…(n,T)` |
| PlayDriver.AppendBatch | app.py:247-264 | The inner loop appends the batch's converted reviews until the target is reached, reporting progress after each |
| Report.Repeat | app.py:286-295 | `c * n` has `max(n, 0)` copies of `c` |
| Report.StarBar | app.py:301 | The bar has `max(r,0) + max(5-r,0)` glyphs, and glyph `i` is `●` exactly when `i < r` |
| Report.StarBarInRange | app.py:301 | For ratings 0..5 the bar is exactly 5 glyphs, and the filled ones are the first `rating` |
| Report.ReportSplit | app.py:299-311 | The report is the header, then block `#k+1` for review `k` in input order between the blocks of the earlier and the later reviews, then the footer |
| Report.BlockFields | app.py:303-311 | A block is `#idx`, the rating line, the optional title, then content, author and date, the optional region, and a blank line. Content and date fall back to `-` and author to `익명` only when the field is missing |
| Report.TitleLineIff | app.py:305-306 | A title line is printed exactly when the title is non-empty, and it shows the title |
| Report.RegionLineIff | app.py:309-310 | A region line is printed exactly when a country other than `kr` is set, and it shows the country upper-cased |
| Report.CountsStated | app.py:293-315 | Both the header and the footer state `len(reviews)` in decimal |
| Report.TimestampFields | app.py:283 | The timestamp is 19 characters, with year, month, day, hour and minute at fixed places |
| Report.GenerateReport | app.py:281-317 | The `+=` loop produces exactly the text of the report's lines, each followed by a newline |
| Report.AppendReview | app.py:299-311 | One pass of the loop appends exactly the review's block to the text built so far |
| Report.AppendLine | app.py:303-315 | `report += line + "\n"` appends one line to the text of the lines so far |
| Preview.ChosenRating | app.py:493-500 | "전체" selects no rating. Every other choice selects the digit it starts with, 1..5 |
| Preview.RatingLabelsDescend | app.py:493-500 | The five star choices select 5, 4, 3, 2, 1 in order |
| Preview.WithRating | app.py:501 | The kept reviews all have exactly the chosen rating and are a sub-multiset of the input |
| Preview.WithRatingKeeps | app.py:501 | A review is kept exactly when it is in the input and its rating equals the chosen one. A missing rating never matches |
| Preview.WithRatingCount | app.py:501 | A matching review is kept as many times as it occurs |
| Preview.WithRatingAppend | app.py:501 | Filtering distributes over concatenation, so kept reviews stay in their original order |
| Preview.FilteredKeeps | app.py:498-501 | The filter keeps a review exactly when it is in the list and passes ("전체", or a rating equal to the chosen digit; a missing rating never equals it). A passing review keeps its multiplicity, the result is a sub-multiset, and filtering a concatenation filters each part, so the original order is kept |
| Preview.Insert | app.py:505-507 | Inserting adds the review once and keeps the rest |
| Preview.SortByRatingSorted | app.py:505-507 | The sort orders by rating (0 when missing), high first or low first |
| Preview.SortByRatingPermutes | app.py:505-507 | The sort is a permutation |
| Preview.SortByRatingStable | app.py:505-507 | The sort is stable: reviews with equal ratings keep their original order, in both directions |
| Preview.InsertRatedAs | app.py:505-507 | Insertion puts the review ahead of those rated like it and keeps every rating's order |
| Preview.OrderedSorts | app.py:495-507 | For each of the three sort choices the result is a permutation of the input. "최신순" keeps the collection order. "평점 높은순" gives a list sorted high first, and "평점 낮은순" one sorted low first. For every rating, the reviews with that rating keep their collection order |
| Preview.Shown | app.py:510 | At most the first 50 reviews are shown, as a prefix, and all of them when there are at most 50 |
| Preview.Truncated | app.py:510-529 | "Only 50 shown" is reported exactly when some reviews are not shown |
| Preview.PreviewShows | app.py:498-510 | Every shown review was collected and has the chosen rating. With a sort chosen, the shown reviews are in rating order |

## Left out

- The Streamlit user interface:
  - the page set-up and style sheet;
  - `main` and the home and crawl pages;
  - `st.session_state`;
  - the HTML rendering of the preview, including its `⭐`/`☆` bar;
  - the download button and its file name;
  - the text of `st.error` messages. An error is a flag.
- `requests.get`, BeautifulSoup's XML parsing and `google_play_scraper.reviews` are not modelled. The model uses oracle functions in their place; their wire formats are foreign to this code.
- `time.sleep` has no effect on the results.
- `datetime.now()` is a `Moment` parameter. The scraper's `at` is a `Date` value. Years below 1000 (which `strftime` does not pad) are outside `Fixed`'s intended range.
- The progress bar's `current / total` ratio is floating-point UI code. The model records the integer pairs passed to the callback.
- `html.unescape` decodes only a fixed table: `&amp;`, `&lt;`, `&gt;`, `&quot;`, `&apos;`, `&nbsp;` and `&#39;`, each with its `;`. The full HTML5 entity table, entities without `;`, and other numeric references are left out.
- `int()`, `isdigit()` and `\d` accept ASCII digits only. Unicode digits are left out, and so is `upper()` beyond `a`-`z`.
- A dictionary key holding `None` is not distinguished from a missing key.
- `ParseInt` applies `int()`'s default limit of 4300 digits, which Python has had since 3.11 (and 3.10.7, 3.9.14). An older interpreter, or one whose limit was changed with `sys.set_int_max_str_digits`, is not modelled.
- Numbers.ParseIntToString: holds only for integers of at most 4300 digits. For longer ones Python's `str()` raises before `int()` is reached.
- Numbers.IntToString: does not model `str()`'s own 4300-digit limit. The integers the report prints are counts, ratings that `int()` accepted and so have at most 4300 digits, and the scraper's scores.
- Any exception other than a bad rating (for example an attribute error inside BeautifulSoup) is not separately modelled. It would end the pair just like a failed fetch.
- FeedComplete.CollectTakesEligible: an id found on an earlier page excuses a missing entry even when that page raised before reaching the id. The lemma counts every entry of an earlier page as met, not only those read before the exception, so it promises less than the code does in that case.
- Report.GenerateReport: a `rating` key that holds `None` would make `int()` raise. Both fetchers always store an integer there, so the model reads a missing rating as 0 and has no such error path.

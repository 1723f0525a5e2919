/**
 * `generate_report` (app.py): the plain-text report offered for download,
 * a header, one block of lines per review, and a footer.
 */
module Report {
  import opened Wrappers
  import opened Chars
  import opened Numbers
  import opened Records

  /** The local time the report is made at; the clock is a parameter. */
  datatype Moment = Moment(year: nat, month: nat, day: nat, hour: nat, minute: nat)

  /** `strftime('%Y년 %m월 %d일 %H:%M')`. */
  function Timestamp(m: Moment): string {
    Fixed(m.year, 4) + "년 " + Fixed(m.month, 2) + "월 " + Fixed(m.day, 2) + "일 " + Fixed(m.hour, 2) + ":" + Fixed(m.minute, 2)
  }

  function PlatformName(platform: string): string {
    if platform == "ios" then "iOS App Store" else "Google Play Store"
  }

  function Max0(n: int): nat {
    if n < 0 then 0 else n
  }

  /** Python's `c * n`: `n` copies, none when `n` is not positive. */
  function Repeat(c: char, n: int): (s: string)
    ensures |s| == Max0(n)
    ensures forall i :: 0 <= i < |s| ==> s[i] == c
    decreases Max0(n)
  {
    if n <= 0 then [] else [c] + Repeat(c, n - 1)
  }

  /** A filled circle per rating point, then an empty one per point short of five. */
  function StarBar(rating: int): (s: string)
    ensures |s| == Max0(rating) + Max0(5 - rating)
    ensures forall i :: 0 <= i < |s| ==> s[i] == (if i < Max0(rating) then '●' else '○')
  {
    Repeat('●', rating) + Repeat('○', 5 - rating)
  }

  /** For a rating from 0 to 5 the bar is five glyphs wide and the filled ones are exactly the first `rating`. */
  lemma StarBarInRange(rating: int)
    requires 0 <= rating <= 5
    ensures |StarBar(rating)| == 5
    ensures forall i :: 0 <= i < 5 ==> (StarBar(rating)[i] == '●' <==> i < rating)
  {
  }

  /** Each line followed by a newline. */
  function Lines(ls: seq<string>): string {
    if ls == [] then "" else Lines(ls[..|ls| - 1]) + (ls[|ls| - 1] + "\n")
  }

  /** Appending one line to the text appends it and a newline. */
  lemma LinesSnoc(ls: seq<string>, line: string)
    ensures Lines(ls + [line]) == Lines(ls) + (line + "\n")
  {
    assert (ls + [line])[..|ls|] == ls;
  }

  lemma {:induction false} LinesAppend(a: seq<string>, b: seq<string>)
    ensures Lines(a + b) == Lines(a) + Lines(b)
    decreases |b|
  {
    if b == [] {
      assert a + b == a;
    } else {
      var c := b[..|b| - 1];
      assert a + b == (a + c) + [b[|b| - 1]];
      assert b == c + [b[|b| - 1]];
      LinesSnoc(a + c, b[|b| - 1]);
      LinesSnoc(c, b[|b| - 1]);
      LinesAppend(a, c);
    }
  }

  predicate HasTitle(r: Review) {
    r.title.Some? && r.title.value != ""
  }

  predicate HasRegion(r: Review) {
    r.country.Some? && r.country.value != "" && r.country.value != "kr"
  }

  // The lines of a review's block, one function per f-string of the source.
  function IndexLine(idx: nat): string { "#" + NatToString(idx) }
  function RatingLine(rating: int): string { "  평점: " + StarBar(rating) + " [" + IntToString(rating) + "/5]" }
  function TitleLine(title: string): string { "  제목: " + title }
  function ContentLine(content: string): string { "  리뷰: " + content }
  function AuthorLine(author: string): string { "  작성자: " + author }
  function DateLine(date: string): string { "  날짜: " + date }
  function RegionLine(country: string): string { "  지역: " + Upper(country) }

  function TitleLines(r: Review): seq<string> {
    if HasTitle(r) then [TitleLine(r.title.value)] else []
  }

  function RegionLines(r: Review): seq<string> {
    if HasRegion(r) then [RegionLine(r.country.value)] else []
  }

  /** The lines of the block for the `idx`-th review; a missing rating counts as 0 and other missing fields print their defaults. */
  function ReviewLines(idx: nat, r: Review): seq<string> {
    [IndexLine(idx), RatingLine(RatingOf(r))]
    + TitleLines(r)
    + [ContentLine(r.content.GetOr("-")), AuthorLine(r.author.GetOr(Anonymous)), DateLine(r.date.GetOr("-"))]
    + RegionLines(r)
    + [""]
  }

  /** The lines of the blocks of `reviews`, numbered from `first`. */
  function AllReviewLines(reviews: seq<Review>, first: nat): seq<string> {
    if reviews == [] then [] else ReviewLines(first, reviews[0]) + AllReviewLines(reviews[1..], first + 1)
  }

  function HeaderLines(count: nat, platform: string, appId: string, now: Moment): seq<string> {
    [ Repeat('=', 55),
      "    " + PlatformName(platform) + " VoC 데이터 수집 보고서",
      Repeat('=', 55),
      "",
      "[수집 정보]",
      "  - 앱 식별자: " + appId,
      "  - 수집 일시: " + Timestamp(now),
      "  - 수집 건수: " + NatToString(count) + "건",
      "",
      Repeat('-', 55),
      "" ]
  }

  function FooterLines(count: nat): seq<string> {
    [Repeat('-', 55), "총 " + NatToString(count) + "건의 VoC 데이터 수집 완료"]
  }

  function ReportLines(reviews: seq<Review>, platform: string, appId: string, now: Moment): seq<string> {
    HeaderLines(|reviews|, platform, appId, now) + AllReviewLines(reviews, 1) + FooterLines(|reviews|)
  }

  function ReportText(reviews: seq<Review>, platform: string, appId: string, now: Moment): string {
    Lines(ReportLines(reviews, platform, appId, now))
  }

  // ---------------------------------------------------------------------
  // The report, review by review

  lemma {:induction false} AllReviewLinesAppend(a: seq<Review>, b: seq<Review>, first: nat)
    ensures AllReviewLines(a + b, first) == AllReviewLines(a, first) + AllReviewLines(b, first + |a|)
  {
    if a == [] {
      assert a + b == b;
    } else {
      assert (a + b)[1..] == a[1..] + b;
      AllReviewLinesAppend(a[1..], b, first + 1);
    }
  }

  /**
   * The `k`-th review (counting from 0) has the block numbered `k + 1`, in
   * the report text after the header and the blocks of the reviews before
   * it, and before the blocks of the reviews after it and the footer.
   */
  lemma ReportSplit(reviews: seq<Review>, platform: string, appId: string, now: Moment, k: nat)
    requires k < |reviews|
    ensures ReportText(reviews, platform, appId, now)
            == Lines(HeaderLines(|reviews|, platform, appId, now) + AllReviewLines(reviews[..k], 1))
               + Lines(ReviewLines(k + 1, reviews[k]))
               + Lines(AllReviewLines(reviews[k + 1..], k + 2) + FooterLines(|reviews|))
  {
    SplitAround(HeaderLines(|reviews|, platform, appId, now), reviews, FooterLines(|reviews|), k);
  }

  lemma SplitAround(header: seq<string>, reviews: seq<Review>, footer: seq<string>, k: nat)
    requires k < |reviews|
    ensures Lines(header + AllReviewLines(reviews, 1) + footer)
            == Lines(header + AllReviewLines(reviews[..k], 1))
               + Lines(ReviewLines(k + 1, reviews[k]))
               + Lines(AllReviewLines(reviews[k + 1..], k + 2) + footer)
  {
    BlocksAround(reviews, k);
    LinesAround(header, AllReviewLines(reviews[..k], 1), ReviewLines(k + 1, reviews[k]), AllReviewLines(reviews[k + 1..], k + 2), footer);
  }

  /** The blocks of all reviews are those before review `k`, its own block and those after it. */
  lemma BlocksAround(reviews: seq<Review>, k: nat)
    requires k < |reviews|
    ensures AllReviewLines(reviews, 1)
            == AllReviewLines(reviews[..k], 1) + ReviewLines(k + 1, reviews[k]) + AllReviewLines(reviews[k + 1..], k + 2)
  {
    assert reviews == reviews[..k] + reviews[k..];
    AllReviewLinesAppend(reviews[..k], reviews[k..], 1);
    assert reviews[k..][1..] == reviews[k + 1..];
  }

  lemma LinesAround(h: seq<string>, a: seq<string>, b: seq<string>, c: seq<string>, f: seq<string>)
    ensures Lines(h + (a + b + c) + f) == Lines(h + a) + Lines(b) + Lines(c + f)
  {
    assert h + (a + b + c) + f == (h + a) + b + (c + f);
    LinesAppend((h + a) + b, c + f);
    LinesAppend(h + a, b);
  }

  /** The header and the footer both state the number of reviews, in decimal. */
  lemma CountsStated(reviews: seq<Review>, platform: string, appId: string, now: Moment)
    ensures var ls := ReportLines(reviews, platform, appId, now);
            && |ls| == 13 + |AllReviewLines(reviews, 1)|
            && ls[7] == "  - 수집 건수: " + NatToString(|reviews|) + "건"
            && ls[|ls| - 1] == "총 " + NatToString(|reviews|) + "건의 VoC 데이터 수집 완료"
            && DigitsValue(NatToString(|reviews|)) == |reviews|
  {
    var h := HeaderLines(|reviews|, platform, appId, now);
    var f := FooterLines(|reviews|);
    assert |h| == 11 && h[7] == "  - 수집 건수: " + NatToString(|reviews|) + "건";
    assert |f| == 2 && f[1] == "총 " + NatToString(|reviews|) + "건의 VoC 데이터 수집 완료";
    EndsOfThree(h, AllReviewLines(reviews, 1), f);
    NatToStringValue(|reviews|);
  }

  lemma EndsOfThree<T>(h: seq<T>, b: seq<T>, f: seq<T>)
    requires |h| > 7 && |f| > 0
    ensures |h + b + f| == |h| + |b| + |f|
    ensures (h + b + f)[7] == h[7] && (h + b + f)[|h + b + f| - 1] == f[|f| - 1]
  {
  }

  /**
   * The fixed lines of a block: its number, the rating line, then content,
   * author and date after the optional title line, and a blank line last.
   * Content and date fall back to "-" and the author to "익명" only when
   * the review has none.
   */
  lemma BlockFields(idx: nat, r: Review)
    ensures var ls := ReviewLines(idx, r);
            var t := |TitleLines(r)|;
            && |ls| == 6 + t + |RegionLines(r)|
            && ls[0] == "#" + NatToString(idx)
            && ls[1] == RatingLine(RatingOf(r))
            && ls[2 + t] == ContentLine(if r.content.Some? then r.content.value else "-")
            && ls[3 + t] == AuthorLine(if r.author.Some? then r.author.value else Anonymous)
            && ls[4 + t] == DateLine(if r.date.Some? then r.date.value else "-")
            && ls[|ls| - 1] == ""
  {
  }

  /** The time stamp is 19 characters, with the year, month, day, hour and minute at fixed places. */
  lemma TimestampFields(m: Moment)
    requires m.year < 10000 && m.month < 100 && m.day < 100 && m.hour < 100 && m.minute < 100
    ensures var t := Timestamp(m);
            && |t| == 19
            && DigitsValue(t[0..4]) == m.year
            && DigitsValue(t[6..8]) == m.month
            && DigitsValue(t[10..12]) == m.day
            && DigitsValue(t[14..16]) == m.hour
            && DigitsValue(t[17..19]) == m.minute
  {
    var t := Timestamp(m);
    assert Pow10(4) == 10000 && Pow10(2) == 100;
    FixedValue(m.year, 4);
    FixedValue(m.month, 2);
    FixedValue(m.day, 2);
    FixedValue(m.hour, 2);
    FixedValue(m.minute, 2);
    assert t[0..4] == Fixed(m.year, 4);
    assert t[6..8] == Fixed(m.month, 2);
    assert t[10..12] == Fixed(m.day, 2);
    assert t[14..16] == Fixed(m.hour, 2);
    assert t[17..19] == Fixed(m.minute, 2);
  }

  /** Some line of `ls` begins with `lead`. */
  predicate HasLineWith(ls: seq<string>, lead: string) {
    exists k :: 0 <= k < |ls| && lead <= ls[k]
  }

  /** A title line is printed exactly when the review has a non-empty title. */
  lemma TitleLineIff(idx: nat, r: Review)
    ensures HasLineWith(ReviewLines(idx, r), "  제목: ") <==> HasTitle(r)
    ensures HasTitle(r) ==> ReviewLines(idx, r)[2] == TitleLine(r.title.value)
  {
    var ls := ReviewLines(idx, r);
    if HasTitle(r) {
      assert "  제목: " <= ls[2];
    } else {
      forall k | 0 <= k < |ls| ensures !("  제목: " <= ls[k]) {
        LabelsDiffer(idx, r, k);
        if ls[k] == "" || ls[k][0] == '#' {
          NotPrefix("  제목: ", ls[k], 0);
        } else {
          NotPrefix("  제목: ", ls[k], 2);
        }
      }
    }
  }

  /** A region line is printed exactly when the review has a country other than "kr"; it shows the country upper-cased. */
  lemma RegionLineIff(idx: nat, r: Review)
    ensures HasLineWith(ReviewLines(idx, r), "  지역: ") <==> HasRegion(r)
    ensures HasRegion(r) ==> ReviewLines(idx, r)[|ReviewLines(idx, r)| - 2] == RegionLine(r.country.value)
  {
    var ls := ReviewLines(idx, r);
    if HasRegion(r) {
      assert "  지역: " <= ls[|ls| - 2];
    } else {
      forall k | 0 <= k < |ls| ensures !("  지역: " <= ls[k]) {
        LabelsDiffer(idx, r, k);
        if ls[k] == "" || ls[k][0] == '#' {
          NotPrefix("  지역: ", ls[k], 0);
        } else {
          NotPrefix("  지역: ", ls[k], 2);
        }
      }
    }
  }

  lemma NotPrefix(p: string, s: string, i: nat)
    requires i < |p| && (i >= |s| || s[i] != p[i])
    ensures !(p <= s)
  {
    if |p| <= |s| {
      assert s[..|p|][i] != p[i];
    }
  }

  /** Every line of a block begins with `#`, is empty, or has its label's first letter at position 2. */
  lemma LabelsDiffer(idx: nat, r: Review, k: nat)
    requires k < |ReviewLines(idx, r)|
    ensures var line := ReviewLines(idx, r)[k];
            || line == ""
            || line[0] == '#'
            || (|line| > 2 && line[2] in {'평', '리', '작', '날'})
            || (HasTitle(r) && k == 2 && line == TitleLine(r.title.value))
            || (HasRegion(r) && k == |ReviewLines(idx, r)| - 2 && line == RegionLine(r.country.value))
  {
    var head := [IndexLine(idx), RatingLine(RatingOf(r))];
    var middle := [ContentLine(r.content.GetOr("-")), AuthorLine(r.author.GetOr(Anonymous)), DateLine(r.date.GetOr("-"))];
    var ls := ReviewLines(idx, r);
    var t := |TitleLines(r)|;
    assert ls == head + TitleLines(r) + middle + RegionLines(r) + [""];
    if k < 2 {
      assert ls[k] == head[k];
    } else if k < 2 + t {
      assert ls[k] == TitleLines(r)[0];
    } else if k < 5 + t {
      assert ls[k] == middle[k - 2 - t];
    } else if k < |ls| - 1 {
      assert ls[k] == RegionLines(r)[0];
    }
  }

  /**
   * Builds the report the way the source does: the header, then the lines
   * of each review appended in turn, then the footer.
   */
  method GenerateReport(reviews: seq<Review>, platform: string, appId: string, now: Moment) returns (report: string)
    ensures report == ReportText(reviews, platform, appId, now)
  {
    ghost var header := HeaderLines(|reviews|, platform, appId, now);
    report := Lines(HeaderLines(|reviews|, platform, appId, now));
    var i := 0;
    assert header + AllReviewLines(reviews[..0], 1) == header;
    while i < |reviews|
      invariant 0 <= i <= |reviews|
      invariant report == Lines(header + AllReviewLines(reviews[..i], 1))
    {
      report := AppendReview(report, header + AllReviewLines(reviews[..i], 1), i + 1, reviews[i]);
      NextBlock(header, reviews, i);
      i := i + 1;
    }
    assert reviews[..i] == reviews;
    ghost var lines := header + AllReviewLines(reviews, 1);
    report, lines := AppendLine(report, lines, Repeat('-', 55));
    report, lines := AppendLine(report, lines, "총 " + NatToString(|reviews|) + "건의 VoC 데이터 수집 완료");
    assert lines == ReportLines(reviews, platform, appId, now);
  }

  /**
   * The body of the source's loop for one review: appended to the text of
   * `lines`, it gives the text of `lines` followed by the review's block.
   */
  method AppendReview(report0: string, ghost lines: seq<string>, idx: nat, review: Review) returns (report: string)
    requires report0 == Lines(lines)
    ensures report == Lines(lines + ReviewLines(idx, review))
  {
    var rating := review.rating.GetOr(0);
    ghost var cur := lines;
    report, cur := AppendLine(report0, cur, IndexLine(idx));
    report, cur := AppendLine(report, cur, RatingLine(rating));
    ghost var head := cur;
    if review.title.Some? && review.title.value != "" {
      report, cur := AppendLine(report, cur, TitleLine(review.title.value));
    }
    assert cur == head + TitleLines(review);
    report, cur := AppendLine(report, cur, ContentLine(review.content.GetOr("-")));
    report, cur := AppendLine(report, cur, AuthorLine(review.author.GetOr(Anonymous)));
    report, cur := AppendLine(report, cur, DateLine(review.date.GetOr("-")));
    ghost var middle := cur;
    if review.country.Some? && review.country.value != "" && review.country.value != "kr" {
      report, cur := AppendLine(report, cur, RegionLine(review.country.value));
    }
    assert cur == middle + RegionLines(review);
    report, cur := AppendLine(report, cur, "");
    BlockPieces(lines, IndexLine(idx), RatingLine(rating), TitleLines(review),
                ContentLine(review.content.GetOr("-")), AuthorLine(review.author.GetOr(Anonymous)), DateLine(review.date.GetOr("-")),
                RegionLines(review));
  }

  /** `report += line + "\n"`: the text of `lines` becomes the text of `lines` and one more line. */
  method AppendLine(report0: string, ghost lines0: seq<string>, line: string) returns (report: string, ghost lines: seq<string>)
    requires report0 == Lines(lines0)
    ensures lines == lines0 + [line]
    ensures report == Lines(lines)
  {
    report := report0 + (line + "\n");
    lines := lines0 + [line];
    LinesSnoc(lines0, line);
  }

  lemma BlockPieces(ls: seq<string>, a: string, b: string, t: seq<string>, c: string, d: string, e: string, g: seq<string>)
    ensures ls + [a] + [b] + t + [c] + [d] + [e] + g + [""] == ls + ([a, b] + t + [c, d, e] + g + [""])
  {
  }

  /** The blocks of the first `i + 1` reviews are those of the first `i` and then the block of review `i`. */
  lemma NextBlock(header: seq<string>, reviews: seq<Review>, i: nat)
    requires i < |reviews|
    ensures header + AllReviewLines(reviews[..i + 1], 1) == header + AllReviewLines(reviews[..i], 1) + ReviewLines(i + 1, reviews[i])
  {
    assert reviews[..i + 1] == reviews[..i] + [reviews[i]];
    AllReviewLinesAppend(reviews[..i], [reviews[i]], 1);
    SingleBlock(reviews[i], i + 1);
    SeqAssoc(header, AllReviewLines(reviews[..i], 1), ReviewLines(i + 1, reviews[i]));
  }

  lemma SingleBlock(r: Review, idx: nat)
    ensures AllReviewLines([r], idx) == ReviewLines(idx, r)
  {
    assert [r][1..] == [];
  }

  lemma SeqAssoc<T>(a: seq<T>, b: seq<T>, c: seq<T>)
    ensures a + (b + c) == a + b + c
  {
  }
}

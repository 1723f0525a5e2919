/**
 * `clean_html_text` (app.py): a fixed chain of rewrites that turns review
 * text carrying HTML entities and tags into plain text.
 *
 * Each `re.sub` of the original is one `Sub` with its own `Pattern`: the
 * text is scanned left to right, a match at the current position is
 * replaced and skipped, otherwise one character is kept.
 */
module TextClean {
  import opened Wrappers
  import opened Chars

  // ---------------------------------------------------------------------
  // Step 1: character references

  /** The named and numeric references this model decodes, each without its leading `&`. */
  const Entities: seq<(string, char)> :=
    [("amp;", '&'), ("lt;", '<'), ("gt;", '>'), ("quot;", '"'), ("apos;", '\''),
     ("nbsp;", '\U{A0}'), ("#39;", '\'')]

  /** The first table entry, from position `k` of the table on, that `s` starts with: its length and its character. */
  function EntityAt(s: string, k: nat): (r: Option<(nat, char)>)
    decreases |Entities| - k
    ensures r.Some? ==> 0 < r.value.0 <= |s|
  {
    if k >= |Entities| then None
    else
      var (name, c) := Entities[k];
      if |name| <= |s| && s[..|name|] == name then Some((|name|, c)) else EntityAt(s, k + 1)
  }

  /** `html.unescape`: every `&name;` of the table becomes its character, in one left-to-right pass. */
  function Unescape(s: string): string
    decreases |s|
  {
    if s == [] then []
    else if s[0] == '&' then
      match EntityAt(s[1..], 0)
      case Some((n, c)) => [c] + Unescape(s[1 + n..])
      case None => ['&'] + Unescape(s[1..])
    else [s[0]] + Unescape(s[1..])
  }

  // ---------------------------------------------------------------------
  // Steps 2-6: regular-expression substitutions

  /** The five patterns `clean_html_text` substitutes, in the order it applies them. */
  datatype Pattern =
    | BreakTag      // <br\s*/?>   case-insensitive
    | ParagraphTag  // </?p\s*/?>  case-insensitive
    | AnyTag        // <[^>]+>
    | SpaceRun      // ' +'
    | NewlineRun    // \n{3,}

  /** How many copies of `c` open `s`. */
  function RunOf(s: string, c: char): (n: nat)
    ensures n <= |s|
    ensures forall k :: 0 <= k < n ==> s[k] == c
    ensures n < |s| ==> s[n] != c
  {
    if s == [] || s[0] != c then 0 else 1 + RunOf(s[1..], c)
  }

  /** The first `>` at or after `from`, or `|s|` when there is none. */
  function FirstGt(s: string, from: nat): (j: nat)
    requires from <= |s|
    decreases |s| - from
    ensures from <= j <= |s|
    ensures forall k :: from <= k < j ==> s[k] != '>'
    ensures j < |s| ==> s[j] == '>'
  {
    if from == |s| || s[from] == '>' then from else FirstGt(s, from + 1)
  }

  /** Where a `/?>` that starts at `k` ends, or 0 when there is none. */
  function CloseAt(s: string, k: nat): (e: nat)
    ensures e == 0 || k < e <= |s|
  {
    if k < |s| && s[k] == '>' then k + 1
    else if k + 1 < |s| && s[k] == '/' && s[k + 1] == '>' then k + 2
    else 0
  }

  /** The length of the match of `p` at the start of `s`, 0 when it does not match there. */
  function MatchLen(p: Pattern, s: string): (n: nat)
    ensures n <= |s|
    ensures n > 0 && (p == BreakTag || p == ParagraphTag || p == AnyTag) ==> s[0] == '<'
    ensures n > 0 && p == SpaceRun ==> s[0] == ' ' && (n < |s| ==> s[n] != ' ')
    ensures n > 0 && p == NewlineRun ==> s[0] == '\n' && (n < |s| ==> s[n] != '\n')
  {
    match p
    case BreakTag =>
      if |s| >= 3 && s[0] == '<' && (s[1] == 'b' || s[1] == 'B') && (s[2] == 'r' || s[2] == 'R')
      then CloseAt(s, 3 + LeadingSpaces(s[3..]))
      else 0
    case ParagraphTag =>
      var k := if |s| >= 2 && s[1] == '/' then 2 else 1;
      if k < |s| && s[0] == '<' && (s[k] == 'p' || s[k] == 'P')
      then CloseAt(s, k + 1 + LeadingSpaces(s[k + 1..]))
      else 0
    case AnyTag =>
      if |s| >= 2 && s[0] == '<' then
        var j := FirstGt(s, 1);
        if 2 <= j < |s| then j + 1 else 0
      else 0
    case SpaceRun =>
      RunOf(s, ' ')
    case NewlineRun =>
      var n := RunOf(s, '\n');
      if n >= 3 then n else 0
  }

  /** `re.sub(p, repl, s)`: leftmost, non-overlapping matches of `p` replaced by `repl`. */
  function Sub(p: Pattern, repl: string, s: string): string
    decreases |s|
  {
    if s == [] then []
    else
      var n := MatchLen(p, s);
      if n > 0 then repl + Sub(p, repl, s[n..]) else [s[0]] + Sub(p, repl, s[1..])
  }

  // ---------------------------------------------------------------------
  // The whole cleaner

  /** The cleaning chain on non-empty text: decode, line breaks, paragraphs, tags, spaces, newlines, strip. */
  function Clean(s: string): string {
    var decoded := Unescape(s);
    var breaks := Sub(BreakTag, "\n", decoded);
    var paragraphs := Sub(ParagraphTag, "\n", breaks);
    var untagged := Sub(AnyTag, "", paragraphs);
    var spaced := Sub(SpaceRun, " ", untagged);
    var capped := Sub(NewlineRun, "\n\n", spaced);
    Strip(capped)
  }

  /** `clean_html_text(text)`: `None` and the empty string are returned as they are. */
  function CleanHtmlText(text: Option<string>): Option<string> {
    if text.None? || text.value == [] then text else Some(Clean(text.value))
  }

  // ---------------------------------------------------------------------
  // The shape of cleaned text

  /** `s[i..j+1]` is a tag: `<`, one or more characters other than `>`, then `>`. */
  predicate IsTagAt(s: string, i: nat, j: nat)
    requires i < j < |s|
  {
    s[i] == '<' && s[j] == '>' && i + 1 < j && forall k :: i < k < j ==> s[k] != '>'
  }

  /** No substring matches `<[^>]+>`. */
  predicate TagFree(s: string) {
    forall i, j :: 0 <= i < j < |s| ==> !IsTagAt(s, i, j)
  }

  predicate NoDoubleSpace(s: string) {
    forall i :: 0 <= i < |s| - 1 ==> !(s[i] == ' ' && s[i + 1] == ' ')
  }

  predicate NoTripleNewline(s: string) {
    forall i :: 0 <= i < |s| - 2 ==> !(s[i] == '\n' && s[i + 1] == '\n' && s[i + 2] == '\n')
  }

  /** Every `<` is directly followed by `>` or has no `>` anywhere after it. */
  predicate LtGuarded(s: string)
    decreases |s|
  {
    s == [] || ((s[0] == '<' ==> (|s| > 1 && s[1] == '>') || '>' !in s[1..]) && LtGuarded(s[1..]))
  }

  lemma {:induction false} SubAvoids(p: Pattern, repl: string, s: string, x: char)
    requires x !in s && x !in repl
    ensures x !in Sub(p, repl, s)
    decreases |s|
  {
    if s != [] {
      var n := MatchLen(p, s);
      if n > 0 {
        assert forall c :: c in s[n..] ==> c in s;
        SubAvoids(p, repl, s[n..], x);
      } else {
        SubAvoids(p, repl, s[1..], x);
      }
    }
  }

  /** The space and newline substitutions never change the first character. */
  lemma SubKeepsFirst(p: Pattern, repl: string, t: string)
    requires (p == SpaceRun && repl == " ") || (p == NewlineRun && repl == "\n\n")
    requires t != []
    ensures Sub(p, repl, t) != [] && Sub(p, repl, t)[0] == t[0]
  {
  }

  /** A character other than `<` never starts a tag match, so it survives as the first character. */
  lemma SubKeepsNonLt(p: Pattern, repl: string, t: string)
    requires p == BreakTag || p == ParagraphTag || p == AnyTag
    requires t != [] && t[0] != '<'
    ensures Sub(p, repl, t) == [t[0]] + Sub(p, repl, t[1..])
  {
  }

  lemma {:induction false} GuardedSuffix(s: string, n: nat)
    requires LtGuarded(s) && n <= |s|
    ensures LtGuarded(s[n..])
    decreases n
  {
    if n > 0 {
      GuardedSuffix(s[1..], n - 1);
      assert s[1..][n - 1..] == s[n..];
    }
  }

  lemma {:induction false} GuardedPrepend(u: string, x: string)
    requires '<' !in u && LtGuarded(x)
    ensures LtGuarded(u + x)
    decreases |u|
  {
    if u == [] {
      assert u + x == x;
    } else {
      GuardedPrepend(u[1..], x);
      assert (u + x)[1..] == u[1..] + x;
      assert (u + x)[0] == u[0] != '<';
    }
  }

  /** After tags are removed, every remaining `<` is harmless. */
  lemma {:induction false} StripTagsGuarded(s: string)
    ensures LtGuarded(Sub(AnyTag, "", s))
    decreases |s|
  {
    if s != [] {
      var n := MatchLen(AnyTag, s);
      if n > 0 {
        StripTagsGuarded(s[n..]);
        assert Sub(AnyTag, "", s) == Sub(AnyTag, "", s[n..]);
      } else {
        var rest := Sub(AnyTag, "", s[1..]);
        StripTagsGuarded(s[1..]);
        assert Sub(AnyTag, "", s) == [s[0]] + rest;
        if s[0] == '<' {
          var j := FirstGt(s, 1);
          if |s| == 1 {
            assert rest == [];
          } else if j == |s| {
            assert '>' !in s[1..];
            SubAvoids(AnyTag, "", s[1..], '>');
          } else {
            assert j == 1;
            SubKeepsNonLt(AnyTag, "", s[1..]);
          }
        }
        assert ([s[0]] + rest)[1..] == rest;
      }
    }
  }

  /** The space and newline substitutions keep every `<` harmless. */
  lemma {:induction false} RunSubKeepsGuarded(p: Pattern, repl: string, s: string)
    requires (p == SpaceRun && repl == " ") || (p == NewlineRun && repl == "\n\n")
    requires LtGuarded(s)
    ensures LtGuarded(Sub(p, repl, s))
    decreases |s|
  {
    if s != [] {
      var n := MatchLen(p, s);
      if n > 0 {
        GuardedSuffix(s, n);
        RunSubKeepsGuarded(p, repl, s[n..]);
        GuardedPrepend(repl, Sub(p, repl, s[n..]));
      } else {
        var rest := Sub(p, repl, s[1..]);
        RunSubKeepsGuarded(p, repl, s[1..]);
        assert Sub(p, repl, s) == [s[0]] + rest;
        if s[0] == '<' {
          if |s| > 1 && s[1] == '>' {
            SubKeepsFirst(p, repl, s[1..]);
          } else {
            SubAvoids(p, repl, s[1..], '>');
          }
        }
        assert ([s[0]] + rest)[1..] == rest;
      }
    }
  }

  lemma {:induction false} GuardedTagFree(s: string)
    requires LtGuarded(s)
    ensures TagFree(s)
    decreases |s|
  {
    if s != [] {
      GuardedTagFree(s[1..]);
      forall i, j | 0 <= i < j < |s|
        ensures !IsTagAt(s, i, j)
      {
        if i == 0 {
          assert s[1..][j - 1] == s[j];
        } else {
          assert IsTagAt(s, i, j) ==> IsTagAt(s[1..], i - 1, j - 1);
        }
      }
    }
  }

  lemma NoDoubleSpaceCons(c: char, x: string)
    requires NoDoubleSpace(x)
    requires c == ' ' && x != [] ==> x[0] != ' '
    ensures NoDoubleSpace([c] + x)
  {
    var y := [c] + x;
    forall i | 0 <= i < |y| - 1
      ensures !(y[i] == ' ' && y[i + 1] == ' ')
    {
      if i > 0 {
        assert y[i] == x[i - 1] && y[i + 1] == x[i];
      }
    }
  }

  lemma NoTripleNewlineCons(c: char, x: string)
    requires NoTripleNewline(x)
    requires c == '\n' && |x| >= 2 ==> !(x[0] == '\n' && x[1] == '\n')
    ensures NoTripleNewline([c] + x)
  {
    var y := [c] + x;
    forall i | 0 <= i < |y| - 2
      ensures !(y[i] == '\n' && y[i + 1] == '\n' && y[i + 2] == '\n')
    {
      if i > 0 {
        assert y[i] == x[i - 1] && y[i + 1] == x[i] && y[i + 2] == x[i + 1];
      }
    }
  }

  /** `re.sub(' +', ' ', s)` leaves no two spaces side by side. */
  lemma {:induction false} SpacesCollapsed(s: string)
    ensures NoDoubleSpace(Sub(SpaceRun, " ", s))
    decreases |s|
  {
    if s != [] {
      var n := MatchLen(SpaceRun, s);
      if n > 0 {
        var rest := Sub(SpaceRun, " ", s[n..]);
        SpacesCollapsed(s[n..]);
        if s[n..] != [] {
          SubKeepsFirst(SpaceRun, " ", s[n..]);
        }
        NoDoubleSpaceCons(' ', rest);
      } else {
        SpacesCollapsed(s[1..]);
        NoDoubleSpaceCons(s[0], Sub(SpaceRun, " ", s[1..]));
      }
    }
  }

  /** Capping newline runs keeps spaces apart. */
  lemma {:induction false} NewlinesKeepSpacesApart(s: string)
    requires NoDoubleSpace(s)
    ensures NoDoubleSpace(Sub(NewlineRun, "\n\n", s))
    decreases |s|
  {
    if s != [] {
      var n := MatchLen(NewlineRun, s);
      if n > 0 {
        var rest := Sub(NewlineRun, "\n\n", s[n..]);
        assert NoDoubleSpace(s[n..]) by {
          forall i | 0 <= i < |s[n..]| - 1 ensures !(s[n..][i] == ' ' && s[n..][i + 1] == ' ') {
            assert s[n..][i] == s[n + i] && s[n..][i + 1] == s[n + i + 1];
          }
        }
        NewlinesKeepSpacesApart(s[n..]);
        NoDoubleSpaceCons('\n', rest);
        NoDoubleSpaceCons('\n', ['\n'] + rest);
        assert "\n\n" + rest == ['\n'] + (['\n'] + rest);
      } else {
        var rest := Sub(NewlineRun, "\n\n", s[1..]);
        assert NoDoubleSpace(s[1..]) by {
          forall i | 0 <= i < |s[1..]| - 1 ensures !(s[1..][i] == ' ' && s[1..][i + 1] == ' ') {
            assert s[1..][i] == s[i + 1] && s[1..][i + 1] == s[i + 2];
          }
        }
        NewlinesKeepSpacesApart(s[1..]);
        if |s| > 1 {
          SubKeepsFirst(NewlineRun, "\n\n", s[1..]);
        }
        NoDoubleSpaceCons(s[0], rest);
      }
    }
  }

  /** `re.sub('\n{3,}', '\n\n', s)` leaves no three newlines in a row. */
  lemma {:induction false} NewlinesCapped(s: string)
    ensures NoTripleNewline(Sub(NewlineRun, "\n\n", s))
    decreases |s|
  {
    if s != [] {
      var n := MatchLen(NewlineRun, s);
      if n > 0 {
        var rest := Sub(NewlineRun, "\n\n", s[n..]);
        NewlinesCapped(s[n..]);
        if s[n..] != [] {
          SubKeepsFirst(NewlineRun, "\n\n", s[n..]);
        }
        NoTripleNewlineCons('\n', rest);
        NoTripleNewlineCons('\n', ['\n'] + rest);
        assert "\n\n" + rest == ['\n'] + (['\n'] + rest);
      } else {
        var rest := Sub(NewlineRun, "\n\n", s[1..]);
        NewlinesCapped(s[1..]);
        if s[0] == '\n' && |s| > 1 && s[1] == '\n' {
          // the run has exactly two newlines, so the third character is not one
          var r := RunOf(s, '\n');
          assert r == 2;
          var t := s[1..];
          assert RunOf(t, '\n') == 1 by {
            assert RunOf(s, '\n') == 1 + RunOf(t, '\n');
          }
          assert MatchLen(NewlineRun, t) == 0;
          assert rest == [t[0]] + Sub(NewlineRun, "\n\n", t[1..]);
          if |t| > 1 {
            SubKeepsFirst(NewlineRun, "\n\n", t[1..]);
          }
        } else if |s| > 1 {
          SubKeepsFirst(NewlineRun, "\n\n", s[1..]);
        }
        NoTripleNewlineCons(s[0], rest);
      }
    }
  }

  /** A slice of text keeps its shape: the three properties only look at neighbouring characters. */
  lemma SliceKeepsShape(s: string, a: nat, b: nat)
    requires a <= b <= |s|
    ensures TagFree(s) ==> TagFree(s[a..b])
    ensures NoDoubleSpace(s) ==> NoDoubleSpace(s[a..b])
    ensures NoTripleNewline(s) ==> NoTripleNewline(s[a..b])
  {
    var t := s[a..b];
    if TagFree(s) {
      forall i, j | 0 <= i < j < |t| ensures !IsTagAt(t, i, j) {
        assert IsTagAt(t, i, j) ==> IsTagAt(s, a + i, a + j);
      }
    }
    if NoDoubleSpace(s) {
      forall i | 0 <= i < |t| - 1 ensures !(t[i] == ' ' && t[i + 1] == ' ') {
        assert t[i] == s[a + i] && t[i + 1] == s[a + i + 1];
      }
    }
    if NoTripleNewline(s) {
      forall i | 0 <= i < |t| - 2 ensures !(t[i] == '\n' && t[i + 1] == '\n' && t[i + 2] == '\n') {
        assert t[i] == s[a + i] && t[i + 1] == s[a + i + 1] && t[i + 2] == s[a + i + 2];
      }
    }
  }

  /**
   * Whatever the input, cleaned text holds no tag, no two spaces side by
   * side, no three newlines in a row and no whitespace at either end.
   */
  lemma CleanShape(s: string)
    ensures TagFree(Clean(s))
    ensures NoDoubleSpace(Clean(s))
    ensures NoTripleNewline(Clean(s))
    ensures Trimmed(Clean(s))
  {
    var paragraphs := Sub(ParagraphTag, "\n", Sub(BreakTag, "\n", Unescape(s)));
    var untagged := Sub(AnyTag, "", paragraphs);
    var spaced := Sub(SpaceRun, " ", untagged);
    var capped := Sub(NewlineRun, "\n\n", spaced);
    assert Clean(s) == Strip(capped);
    StripTagsGuarded(paragraphs);
    RunSubKeepsGuarded(SpaceRun, " ", untagged);
    RunSubKeepsGuarded(NewlineRun, "\n\n", spaced);
    GuardedTagFree(capped);
    SpacesCollapsed(untagged);
    NewlinesKeepSpacesApart(spaced);
    NewlinesCapped(spaced);
    var a := LeadingSpaces(capped);
    SliceKeepsShape(capped, a, a + |Strip(capped)|);
  }

  /** `clean_html_text`: falsy input comes back unchanged, anything else comes back in clean shape. */
  lemma CleanHtmlTextShape(text: Option<string>)
    ensures text.None? || text.value == [] ==> CleanHtmlText(text) == text
    ensures text.Some? ==> CleanHtmlText(text).Some?
    ensures text.Some? ==> var r := CleanHtmlText(text).value;
      TagFree(r) && NoDoubleSpace(r) && NoTripleNewline(r) && Trimmed(r)
  {
    if text.Some? && text.value != [] {
      CleanShape(text.value);
    }
  }
  // ---------------------------------------------------------------------
  // Text that is already plain

  lemma {:induction false} UnescapePlain(s: string)
    requires '&' !in s
    ensures Unescape(s) == s
    decreases |s|
  {
    if s != [] {
      UnescapePlain(s[1..]);
    }
  }

  lemma {:induction false} TagSubPlain(p: Pattern, repl: string, s: string)
    requires p == BreakTag || p == ParagraphTag || p == AnyTag
    requires '<' !in s
    ensures Sub(p, repl, s) == s
    decreases |s|
  {
    if s != [] {
      TagSubPlain(p, repl, s[1..]);
    }
  }

  lemma {:induction false} SpaceRunPlain(s: string)
    requires NoDoubleSpace(s)
    ensures Sub(SpaceRun, " ", s) == s
    decreases |s|
  {
    if s != [] {
      assert NoDoubleSpace(s[1..]) by {
        forall i | 0 <= i < |s[1..]| - 1 ensures !(s[1..][i] == ' ' && s[1..][i + 1] == ' ') {
          assert s[1..][i] == s[i + 1] && s[1..][i + 1] == s[i + 2];
        }
      }
      SpaceRunPlain(s[1..]);
      if s[0] == ' ' {
        assert |s| > 1 ==> s[1] != ' ';
        assert MatchLen(SpaceRun, s) == 1;
      }
    }
  }

  lemma {:induction false} NewlineRunPlain(s: string)
    requires NoTripleNewline(s)
    ensures Sub(NewlineRun, "\n\n", s) == s
    decreases |s|
  {
    if s != [] {
      assert NoTripleNewline(s[1..]) by {
        forall i | 0 <= i < |s[1..]| - 2
          ensures !(s[1..][i] == '\n' && s[1..][i + 1] == '\n' && s[1..][i + 2] == '\n')
        {
          assert s[1..][i] == s[i + 1] && s[1..][i + 1] == s[i + 2] && s[1..][i + 2] == s[i + 3];
        }
      }
      NewlineRunPlain(s[1..]);
      assert MatchLen(NewlineRun, s) == 0 by {
        assert |s| < 3 || !(s[0] == '\n' && s[1] == '\n' && s[2] == '\n');
      }
    }
  }

  /**
   * Text with no `&`, no `<`, no doubled space, no tripled newline and no
   * outer whitespace is already clean: the cleaner returns it unchanged.
   */
  lemma CleanKeepsPlainText(s: string)
    requires '&' !in s && '<' !in s
    requires NoDoubleSpace(s) && NoTripleNewline(s) && Trimmed(s)
    ensures Clean(s) == s
  {
    UnescapePlain(s);
    TagSubPlain(BreakTag, "\n", s);
    TagSubPlain(ParagraphTag, "\n", s);
    TagSubPlain(AnyTag, "", s);
    SpaceRunPlain(s);
    NewlineRunPlain(s);
    StripTrimmed(s);
  }
  /** When decoding alone already yields clean text, the rest of the chain leaves it as it is. */
  lemma CleanAfterDecode(s: string)
    requires '<' !in Unescape(s)
    requires NoDoubleSpace(Unescape(s)) && NoTripleNewline(Unescape(s)) && Trimmed(Unescape(s))
    ensures Clean(s) == Unescape(s)
  {
    var u := Unescape(s);
    TagSubPlain(BreakTag, "\n", u);
    TagSubPlain(ParagraphTag, "\n", u);
    TagSubPlain(AnyTag, "", u);
    SpaceRunPlain(u);
    NewlineRunPlain(u);
    StripTrimmed(u);
  }

  lemma UnescapeAmpLt()
    ensures Unescape("&amp;lt;") == "&lt;"
  {
    var s := "&amp;lt;";
    assert s[1..][..4] == "amp;";
    assert EntityAt(s[1..], 0) == Some((4, '&'));
    UnescapePlain("lt;");
    assert s[5..] == "lt;";
  }

  lemma UnescapeLt()
    ensures Unescape("&lt;") == "<"
  {
    var t := "&lt;";
    assert t[1..][..3] == "lt;";
    assert EntityAt(t[1..], 1) == Some((3, '<'));
  }

  lemma CleanAmpLt()
    ensures Clean("&amp;lt;") == "&lt;"
  {
    UnescapeAmpLt();
    CleanAfterDecode("&amp;lt;");
  }

  lemma CleanLt()
    ensures Clean("&lt;") == "<"
  {
    UnescapeLt();
    assert Sub(BreakTag, "\n", "<") == "<";
    assert Sub(ParagraphTag, "\n", "<") == "<";
    assert Sub(AnyTag, "", "<") == "<";
    assert Sub(SpaceRun, " ", "<") == "<";
    assert Sub(NewlineRun, "\n\n", "<") == "<";
    StripTrimmed("<");
  }

  /**
   * Cleaning is not idempotent: every pass decodes character references
   * again, so escaped markup written as `&amp;lt;` turns into `&lt;` on the
   * first pass and into `<` on the second.
   */
  lemma CleanTwiceDecodesTwice()
    ensures Clean("&amp;lt;") == "&lt;"
    ensures Clean(Clean("&amp;lt;")) == "<"
  {
    CleanAmpLt();
    CleanLt();
  }
}

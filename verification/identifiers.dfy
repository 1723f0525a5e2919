/**
 * `get_app_id_from_url` and `get_package_from_url` (app.py): find the store
 * identifier in what the user typed, a bare identifier or a store URL.
 * Each `re.search(lit + '(' + class + '+)', s)` is `Search(s, lit, cls)`.
 */
module Identifiers {
  import opened Wrappers
  import opened Chars

  /** The character classes of the two capture groups: `\d` and `[a-zA-Z0-9._]`. */
  datatype CharClass = Digits | PackageChars

  predicate InClass(c: char, cls: CharClass) {
    match cls
    case Digits => IsDigit(c)
    case PackageChars => ('a' <= c <= 'z') || ('A' <= c <= 'Z') || IsDigit(c) || c == '.' || c == '_'
  }

  /** The literal `lit` followed by one character of `cls` starts at `i`. */
  predicate PatternAt(s: string, lit: string, cls: CharClass, i: nat) {
    i + |lit| < |s| && s[i..i + |lit|] == lit && InClass(s[i + |lit|], cls)
  }

  /** `i` is the leftmost position where the pattern starts. */
  predicate Leftmost(s: string, lit: string, cls: CharClass, i: nat) {
    PatternAt(s, lit, cls, i) && forall j :: 0 <= j < i ==> !PatternAt(s, lit, cls, j)
  }

  /** `g` is the longest run of `cls` characters right after `lit` at `i`: what the greedy group captures. */
  predicate GroupAt(s: string, lit: string, cls: CharClass, i: nat, g: string) {
    var k := i + |lit|;
    && |g| > 0
    && k + |g| <= |s|
    && s[k..k + |g|] == g
    && (forall m :: 0 <= m < |g| ==> InClass(g[m], cls))
    && (k + |g| == |s| || !InClass(s[k + |g|], cls))
  }

  /** `g` occurs in `s` at position `i`. */
  predicate OccursAt(g: string, s: string, i: nat) {
    i + |g| <= |s| && s[i..i + |g|] == g
  }

  /** The leftmost position, from `from` on, where the pattern starts. */
  function FindPattern(s: string, lit: string, cls: CharClass, from: nat): (r: Option<nat>)
    decreases |s| - from
    ensures r.Some? ==> from <= r.value && PatternAt(s, lit, cls, r.value)
    ensures r.Some? ==> forall i :: from <= i < r.value ==> !PatternAt(s, lit, cls, i)
    ensures r.None? ==> forall i :: from <= i ==> !PatternAt(s, lit, cls, i)
  {
    if from + |lit| >= |s| then None
    else if PatternAt(s, lit, cls, from) then Some(from)
    else FindPattern(s, lit, cls, from + 1)
  }

  /** The end of the run of `cls` characters that starts at `k`. */
  function RunEnd(s: string, k: nat, cls: CharClass): (e: nat)
    requires k <= |s|
    decreases |s| - k
    ensures k <= e <= |s|
    ensures forall m :: k <= m < e ==> InClass(s[m], cls)
    ensures e == |s| || !InClass(s[e], cls)
  {
    if k == |s| || !InClass(s[k], cls) then k else RunEnd(s, k + 1, cls)
  }

  /**
   * `re.search(lit + '(cls+)', s).group(1)`: found exactly when the pattern
   * occurs, and then it is the longest run captured at the leftmost occurrence.
   */
  function Search(s: string, lit: string, cls: CharClass): (r: Option<string>)
    ensures r.Some? <==> exists i :: PatternAt(s, lit, cls, i)
    ensures r.Some? ==> exists i :: Leftmost(s, lit, cls, i) && GroupAt(s, lit, cls, i, r.value)
  {
    match FindPattern(s, lit, cls, 0)
    case None => None
    case Some(i) =>
      var k := i + |lit|;
      var g := s[k..RunEnd(s, k, cls)];
      assert Leftmost(s, lit, cls, i) && GroupAt(s, lit, cls, i, g);
      Some(g)
  }

  /** The digit string from a bare id, a `/id<digits>` path or an `id=<digits>` query. */
  function AppIdFromUrl(s: string): Option<string> {
    if IsDigitString(s) then Some(s)
    else
      var viaPath := Search(s, "/id", Digits);
      if viaPath.Some? then viaPath else Search(s, "id=", Digits)
  }

  /** The package name from a bare dotted name or an `id=<name>` query. */
  function PackageFromUrl(s: string): Option<string> {
    if '.' in s && '/' !in s then Some(s) else Search(s, "id=", PackageChars)
  }

  /** A captured group is a non-empty run of its class that occurs in the text searched. */
  lemma GroupOccurs(s: string, lit: string, cls: CharClass, i: nat, g: string)
    requires GroupAt(s, lit, cls, i, g)
    ensures OccursAt(g, s, i + |lit|)
    ensures |g| > 0 && forall m :: 0 <= m < |g| ==> InClass(g[m], cls)
  {
  }

  /**
   * An all-digit input is its own id; otherwise the id is the digit run after
   * the leftmost `/id`+digit, failing that after the leftmost `id=`+digit,
   * and there is none exactly when neither occurs. Any id found is a
   * non-empty digit string that occurs in the input.
   */
  lemma AppIdResolved(s: string)
    ensures IsDigitString(s) ==> AppIdFromUrl(s) == Some(s)
    ensures !IsDigitString(s) && (exists i :: PatternAt(s, "/id", Digits, i)) ==>
      exists i :: Leftmost(s, "/id", Digits, i) && GroupAt(s, "/id", Digits, i, AppIdFromUrl(s).value)
    ensures !IsDigitString(s) && (forall i :: !PatternAt(s, "/id", Digits, i)) && (exists i :: PatternAt(s, "id=", Digits, i)) ==>
      exists i :: Leftmost(s, "id=", Digits, i) && GroupAt(s, "id=", Digits, i, AppIdFromUrl(s).value)
    ensures AppIdFromUrl(s).None? <==>
      !IsDigitString(s) && (forall i :: !PatternAt(s, "/id", Digits, i)) && (forall i :: !PatternAt(s, "id=", Digits, i))
    ensures AppIdFromUrl(s).Some? ==>
      IsDigitString(AppIdFromUrl(s).value) && exists k :: OccursAt(AppIdFromUrl(s).value, s, k)
  {
    var r := AppIdFromUrl(s);
    if r.Some? && !IsDigitString(s) {
      var lit := if Search(s, "/id", Digits).Some? then "/id" else "id=";
      var i :| Leftmost(s, lit, Digits, i) && GroupAt(s, lit, Digits, i, r.value);
      GroupOccurs(s, lit, Digits, i, r.value);
    } else if r.Some? {
      assert OccursAt(s, s, 0);
    }
  }

  /**
   * A dotted input without `/` is the package name as it stands; otherwise
   * it is the longest `[a-zA-Z0-9._]` run after the leftmost `id=` followed
   * by such a character, and there is none when no such `id=` occurs.
   */
  lemma PackageResolved(s: string)
    ensures '.' in s && '/' !in s ==> PackageFromUrl(s) == Some(s)
    ensures !('.' in s && '/' !in s) && PackageFromUrl(s).Some? ==>
      exists i :: Leftmost(s, "id=", PackageChars, i) && GroupAt(s, "id=", PackageChars, i, PackageFromUrl(s).value)
    ensures PackageFromUrl(s).None? <==>
      !('.' in s && '/' !in s) && forall i :: !PatternAt(s, "id=", PackageChars, i)
    ensures PackageFromUrl(s).Some? ==> exists k :: OccursAt(PackageFromUrl(s).value, s, k)
  {
    var r := PackageFromUrl(s);
    if r.Some? && !('.' in s && '/' !in s) {
      var i :| Leftmost(s, "id=", PackageChars, i) && GroupAt(s, "id=", PackageChars, i, r.value);
      GroupOccurs(s, "id=", PackageChars, i, r.value);
    } else if r.Some? {
      assert OccursAt(s, s, 0);
    }
  }
}

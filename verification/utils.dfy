/**
 * The string helpers of `src/lib/utils.ts`: turning a title into a URL slug,
 * estimating reading time, and shortening text for previews.
 */
module Utils {

  import opened Seqs
  import opened Text

  /** The characters a slug may hold: `[a-z0-9_-]`. */
  predicate IsSlugChar(c: char) {
    ('a' <= c <= 'z') || ('0' <= c <= '9') || c == '_' || c == '-'
  }

  /** The class kept by `replace(/[^\w\-]+/g, '')`. */
  predicate IsWordOrHyphen(c: char) {
    IsWordChar(c) || IsHyphen(c)
  }

  /** Lower-case letters, digits, `_` and `-`, never two hyphens together, none at either end. */
  predicate IsSlug(s: string) {
    && (forall i :: 0 <= i < |s| ==> IsSlugChar(s[i]))
    && NoAdjacent(s, IsHyphen)
    && (s == [] || (s[0] != '-' && s[|s| - 1] != '-'))
  }

  /**
   * `slugify(text)` on text whose accents have already been stripped: lower-case, trim,
   * every whitespace run to one hyphen, drop every character outside `[\w-]`, every hyphen
   * run to one hyphen, then drop hyphens at both ends. The result is a slug: only
   * `[a-z0-9_-]`, so no white space, never `--`, and no hyphen at either end.
   */
  function Slugify(text: string): (r: string)
    ensures IsSlug(r)
  {
    var lower := ToLower(text);
    var trimmed := Trim(lower);
    var dashed := CollapseRuns(trimmed, IsWhitespace, '-');
    var kept := Filter(dashed, IsWordOrHyphen);
    var squashed := CollapseRuns(kept, IsHyphen, '-');
    LowerTrimmedHasNoUpper(text);
    KeptAreSlugChars(trimmed);
    CollapseFromChars(kept, IsHyphen, '-', false);
    CollapseFromSeparated(kept, IsHyphen, '-', false);
    assert forall ch :: ch in squashed ==> IsSlugChar(ch);
    EdgeTrimmedIsSlug(squashed);
    DropLastWhile(DropWhile(squashed, IsHyphen), IsHyphen)
  }

  lemma LowerTrimmedHasNoUpper(text: string)
    ensures forall ch :: ch in Trim(ToLower(text)) ==> !IsUpper(ch)
  {
    TrimChars(ToLower(text));
  }

  /** After hyphenating white space and dropping non-word characters, only slug characters remain. */
  lemma KeptAreSlugChars(trimmed: string)
    requires forall ch :: ch in trimmed ==> !IsUpper(ch)
    ensures forall ch :: ch in Filter(CollapseRuns(trimmed, IsWhitespace, '-'), IsWordOrHyphen) ==> IsSlugChar(ch)
  {
    var dashed := CollapseRuns(trimmed, IsWhitespace, '-');
    CollapseFromChars(trimmed, IsWhitespace, '-', false);
    FilterMembers(dashed, IsWordOrHyphen);
  }

  /** Dropping the hyphens at both ends of a string of slug characters without `--` leaves a slug. */
  lemma EdgeTrimmedIsSlug(squashed: string)
    requires forall ch :: ch in squashed ==> IsSlugChar(ch)
    requires NoAdjacent(squashed, IsHyphen)
    ensures IsSlug(DropLastWhile(DropWhile(squashed, IsHyphen), IsHyphen))
  {
    var front := DropWhile(squashed, IsHyphen);
    var slug := DropLastWhile(front, IsHyphen);
    var k := |squashed| - |front|;
    assert front == squashed[k..];
    assert slug == front[..|slug|];
    forall i | 0 <= i < |slug| ensures slug[i] == squashed[k + i] && IsSlugChar(slug[i]) {
      assert slug[i] == front[i] == squashed[k + i];
      assert squashed[k + i] in squashed;
    }
    forall i | 0 <= i < |slug| - 1 ensures !(IsHyphen(slug[i]) && IsHyphen(slug[i + 1])) {
      assert slug[i] == squashed[k + i] && slug[i + 1] == squashed[k + i + 1];
    }
    assert slug != [] ==> slug[0] == front[0];
  }

  /** A string that already has the shape of a slug is its own slug. */
  lemma SlugifyFixesSlugs(s: string)
    requires IsSlug(s)
    ensures Slugify(s) == s
  {
    SlugIsLowerAndTrimmed(s);
    SlugSurvivesRuns(s);
    SlugHasNoEdgeHyphens(s);
  }

  lemma SlugSurvivesRuns(s: string)
    requires IsSlug(s)
    ensures CollapseRuns(Filter(CollapseRuns(s, IsWhitespace, '-'), IsWordOrHyphen), IsHyphen, '-') == s
  {
    forall i | 0 <= i < |s| ensures !IsWhitespace(s[i]) && IsWordOrHyphen(s[i]) {
      assert IsSlugChar(s[i]);
    }
    CollapseFromNone(s, IsWhitespace, '-', false);
    FilterAll(s, IsWordOrHyphen);
    CollapseFromFixed(s, IsHyphen, '-', false);
  }

  lemma SlugIsLowerAndTrimmed(s: string)
    requires IsSlug(s)
    ensures ToLower(s) == s && Trim(s) == s
  {
    forall i | 0 <= i < |s| ensures !IsUpper(s[i]) {
      assert IsSlugChar(s[i]);
    }
    if s != [] {
      assert IsSlugChar(s[0]) && IsSlugChar(s[|s| - 1]);
      assert !IsWhitespace(s[0]) && !IsWhitespace(s[|s| - 1]);
    }
  }

  lemma SlugHasNoEdgeHyphens(s: string)
    requires IsSlug(s)
    ensures DropLastWhile(DropWhile(s, IsHyphen), IsHyphen) == s
  {
    DropWhileKeeps(s, IsHyphen);
    DropLastWhileKeeps(s, IsHyphen);
  }

  /** `slugify(slugify(s)) == slugify(s)`. */
  lemma SlugifyIdempotent(text: string)
    ensures Slugify(Slugify(text)) == Slugify(text)
  {
    SlugifyFixesSlugs(Slugify(text));
  }

  /** `Math.ceil(n / d)` for natural numbers: the least multiple count that covers `n`. */
  function CeilDiv(n: nat, d: nat): (q: nat)
    requires d > 0
    ensures n <= q * d < n + d
  {
    (n + d - 1) / d
  }

  function Max(a: int, b: int): (r: int)
    ensures r >= a && r >= b && (r == a || r == b)
  {
    if a < b then b else a
  }

  const WordsPerMinute: nat := 200

  /** `calculateReadTime(content)`: pieces of the trimmed text split on `/\s+/`, 200 to a minute. */
  function ReadTime(content: string): (r: nat)
    ensures r >= 1
  {
    Max(1, CeilDiv(|SplitWhitespace(Trim(content))|, WordsPerMinute))
  }

  /**
   * Reading time is at least one minute, one minute for blank text, and otherwise one
   * minute per started 200 words of the text.
   */
  lemma ReadTimeCountsWords(content: string)
    ensures ReadTime(content) == Max(1, CeilDiv(Words(Trim(content)), WordsPerMinute))
    ensures ReadTime(content) >= 1
    ensures IsBlank(content) ==> ReadTime(content) == 1
  {
    var trimmed := Trim(content);
    SplitWhitespaceWords(trimmed);
    if trimmed == [] {
      assert |SplitWhitespace(trimmed)| == 1 && Words(trimmed) == 0;
      assert CeilDiv(1, WordsPerMinute) == 1 && CeilDiv(0, WordsPerMinute) == 0;
    }
    TrimEmptyIffBlank(content);
  }

  /** Where `slice(0, end)` stops on a string of length `len`: a negative end counts from the back. */
  function SliceEnd(len: nat, end: int): (k: nat)
    ensures k <= len
    ensures 0 <= end <= len ==> k == end
    ensures end > len ==> k == len
  {
    if end < 0 then (if len + end < 0 then 0 else len + end)
    else if end > len then len
    else end
  }

  /** `truncateText(text, maxLength)`. */
  function TruncateText(text: string, maxLength: int): (r: string)
    ensures |text| <= maxLength ==> r == text
    ensures |text| > maxLength ==> |r| >= 3 && r[|r| - 3..] == "..."
    ensures |text| > maxLength ==> var kept := r[..|r| - 3];
      kept == [] || (!IsWhitespace(kept[0]) && !IsWhitespace(kept[|kept| - 1]))
    ensures maxLength >= 0 ==> |r| <= maxLength + 3
  {
    if |text| <= maxLength then text
    else
      WithEllipsis(Trim(text[..SliceEnd(|text|, maxLength)]))
  }

  /** `kept + "..."`, with its two parts stated apart. */
  function WithEllipsis(kept: string): (r: string)
    ensures |r| == |kept| + 3 && r[..|kept|] == kept && r[|kept|..] == "..."
  {
    kept + "..."
  }

  /**
   * What a truncated text keeps before the `"..."` is the `slice(0, maxLength)` prefix with
   * a blank run removed from each end and nothing else.
   */
  lemma TruncateKeepsPrefix(text: string, maxLength: int)
    requires |text| > maxLength
    ensures var r := TruncateText(text, maxLength);
      exists lead, trail :: text[..SliceEnd(|text|, maxLength)] == lead + r[..|r| - 3] + trail
        && IsBlank(lead) && IsBlank(trail)
  {
    var r := TruncateText(text, maxLength);
    var front := text[..SliceEnd(|text|, maxLength)];
    assert r[..|r| - 3] == Trim(front);
    TrimIsInfix(front);
  }
}

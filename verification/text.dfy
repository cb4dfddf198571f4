/**
 * The JavaScript string built-ins the components rely on, over `seq<char>`:
 * `trim`, `toLowerCase` (on ASCII letters), `includes`, `split` on a single
 * character and on the regular expression `/\s+/`, `join`, and the
 * run-replacing `replace(/x+/g, c)`.
 */
module Text {

  /** ECMAScript WhiteSpace and LineTerminator: the class `\s` matches and `trim()` removes. */
  predicate IsWhitespace(c: char) {
    || c == ' ' || c == '\t' || c == '\n' || c == '\r' || c == '\U{0B}' || c == '\U{0C}'
    || c == '\U{A0}' || c == '\U{1680}' || ('\U{2000}' <= c <= '\U{200A}')
    || c == '\U{2028}' || c == '\U{2029}' || c == '\U{202F}' || c == '\U{205F}'
    || c == '\U{3000}' || c == '\U{FEFF}'
  }

  predicate IsNotWhitespace(c: char) {
    !IsWhitespace(c)
  }

  predicate IsHyphen(c: char) {
    c == '-'
  }

  predicate IsUpper(c: char) {
    'A' <= c <= 'Z'
  }

  /** The regular-expression class `\w` (without the `u` flag): `[A-Za-z0-9_]`. */
  predicate IsWordChar(c: char) {
    ('a' <= c <= 'z') || IsUpper(c) || ('0' <= c <= '9') || c == '_'
  }

  function LowerChar(c: char): (d: char)
    ensures !IsUpper(d)
    ensures IsUpper(c) ==> 'a' <= d <= 'z' && d as int - 'a' as int == c as int - 'A' as int
    ensures !IsUpper(c) ==> d == c
    ensures IsWordChar(c) <==> IsWordChar(d)
  {
    if IsUpper(c) then (c as int + 32) as char else c
  }

  /** `toLowerCase()` restricted to ASCII letters; every other character is kept. */
  function ToLower(s: string): (r: string)
    ensures |r| == |s|
    ensures forall i :: 0 <= i < |r| ==> !IsUpper(r[i]) && r[i] == LowerChar(s[i])
    ensures (forall i :: 0 <= i < |s| ==> !IsUpper(s[i])) ==> r == s
  {
    seq(|s|, i requires 0 <= i < |s| => LowerChar(s[i]))
  }

  /** Drops the longest prefix whose characters all satisfy `p`. */
  function DropWhile(s: string, p: char -> bool): (r: string)
    ensures |r| <= |s| && r == s[|s| - |r|..]
    ensures forall i :: 0 <= i < |s| - |r| ==> p(s[i])
    ensures r == [] || !p(r[0])
  {
    if s != [] && p(s[0]) then
      var r := DropWhile(s[1..], p);
      assert s[1..][|s| - 1 - |r|..] == s[|s| - |r|..];
      assert forall i :: 0 < i < |s| - |r| ==> s[i] == s[1..][i - 1];
      r
    else s
  }

  /** Drops the longest suffix whose characters all satisfy `p`. */
  function DropLastWhile(s: string, p: char -> bool): (r: string)
    ensures |r| <= |s| && r == s[..|r|]
    ensures forall i :: |r| <= i < |s| ==> p(s[i])
    ensures r == [] || !p(r[|r| - 1])
  {
    if s != [] && p(s[|s| - 1]) then DropLastWhile(s[..|s| - 1], p) else s
  }

  /** Nothing is dropped from a string that does not start with a `p` character. */
  lemma DropWhileKeeps(s: string, p: char -> bool)
    requires s == [] || !p(s[0])
    ensures DropWhile(s, p) == s
  {
  }

  /** Nothing is dropped from a string that does not end with a `p` character. */
  lemma DropLastWhileKeeps(s: string, p: char -> bool)
    requires s == [] || !p(s[|s| - 1])
    ensures DropLastWhile(s, p) == s
  {
  }

  /** Dropping a prefix of `p` characters in front of a character that is not `p` leaves exactly the rest. */
  lemma {:induction false} DropWhileExact(w: string, y: string, p: char -> bool)
    requires forall i :: 0 <= i < |w| ==> p(w[i])
    requires y == [] || !p(y[0])
    ensures DropWhile(w + y, p) == y
    decreases |w|
  {
    if w == [] {
      assert w + y == y;
    } else {
      assert (w + y)[0] == w[0] && (w + y)[1..] == w[1..] + y;
      DropWhileExact(w[1..], y, p);
    }
  }

  function TrimStart(s: string): string {
    DropWhile(s, IsWhitespace)
  }

  /** `s.trim()`. */
  function Trim(s: string): (r: string)
    ensures |r| <= |s|
    ensures r == [] || (!IsWhitespace(r[0]) && !IsWhitespace(r[|r| - 1]))
    ensures r == [] <==> forall i :: 0 <= i < |s| ==> IsWhitespace(s[i])
    ensures (s == [] || (!IsWhitespace(s[0]) && !IsWhitespace(s[|s| - 1]))) ==> r == s
  {
    var front := TrimStart(s);
    var r := DropLastWhile(front, IsWhitespace);
    assert r != [] ==> r[0] == front[0];
    r
  }

  /** Every character of `s` satisfies `p`. */
  predicate All(s: string, p: char -> bool) {
    forall i :: 0 <= i < |s| ==> p(s[i])
  }

  /** `DropWhile` removes a run of `p` characters from the front and nothing else. */
  lemma DropWhileSplits(s: string, p: char -> bool)
    ensures var r := DropWhile(s, p);
      s == s[..|s| - |r|] + r && All(s[..|s| - |r|], p)
  {
    var r := DropWhile(s, p);
    var n := |s| - |r|;
    assert r == s[n..];
    SliceSplits(s, n);
    PrefixAll(s, n, p);
  }

  /** A string is its prefix followed by the rest. */
  lemma SliceSplits(s: string, n: nat)
    requires n <= |s|
    ensures s == s[..n] + s[n..]
  {}

  /** A prefix whose characters all satisfy `p`, seen as a string of its own. */
  lemma PrefixAll(s: string, n: nat, p: char -> bool)
    requires n <= |s| && forall i :: 0 <= i < n ==> p(s[i])
    ensures All(s[..n], p)
  {
    assert forall i :: 0 <= i < n ==> s[..n][i] == s[i];
  }

  /** `DropLastWhile` removes a run of `p` characters from the back and nothing else. */
  lemma DropLastWhileSplits(s: string, p: char -> bool)
    ensures var r := DropLastWhile(s, p);
      s == r + s[|r|..] && All(s[|r|..], p)
  {
    var r := DropLastWhile(s, p);
    assert forall i :: 0 <= i < |s| - |r| ==> s[|r|..][i] == s[|r| + i];
  }

  /** The whitespace `trim()` removes from the front of `s`. */
  function LeadingBlank(s: string): string {
    s[..|s| - |TrimStart(s)|]
  }

  /** The whitespace `trim()` removes from the back of `s`. */
  function TrailingBlank(s: string): string {
    TrimStart(s)[|Trim(s)|..]
  }

  /** Trimming removes a blank run from each end of `s` and nothing else. */
  lemma TrimIsInfix(s: string)
    ensures s == LeadingBlank(s) + Trim(s) + TrailingBlank(s)
    ensures IsBlank(LeadingBlank(s)) && IsBlank(TrailingBlank(s))
  {
    var front := TrimStart(s);
    DropWhileSplits(s, IsWhitespace);
    DropLastWhileSplits(front, IsWhitespace);
    var lead, trail := LeadingBlank(s), TrailingBlank(s);
    assert s == lead + (Trim(s) + trail);
    AppendAssoc(lead, Trim(s), trail);
  }

  /** Concatenation regrouped, stated apart so that it is checked without the trimming facts around it. */
  lemma AppendAssoc(a: string, b: string, c: string)
    ensures a + (b + c) == a + b + c
  {
  }

  /** Trimming only removes characters. */
  lemma TrimChars(s: string)
    ensures forall ch :: ch in Trim(s) ==> ch in s
  {
    TrimIsInfix(s);
  }

  /** Trimming twice is trimming once. */
  lemma TrimIdempotent(s: string)
    ensures Trim(Trim(s)) == Trim(s)
  {
  }

  /** A string made only of white space, the empty string included. */
  predicate IsBlank(s: string) {
    forall i :: 0 <= i < |s| ==> IsWhitespace(s[i])
  }

  /** `s.trim()` is empty, that is falsy, exactly for blank strings. */
  lemma TrimEmptyIffBlank(s: string)
    ensures Trim(s) == [] <==> IsBlank(s)
  {
  }

  /**
   * `s.replace(/x+/g, c)` where `p` is the class `x`, scanning from a state in which the
   * previous character was (`inRun`) or was not in the class: every maximal run of class
   * characters becomes the single character `c`.
   */
  function CollapseFrom(s: string, p: char -> bool, c: char, inRun: bool): (r: string)
    ensures s != [] && !p(s[0]) ==> r != [] && r[0] == s[0]
    ensures s != [] && p(s[0]) && !inRun ==> r != [] && r[0] == c
    decreases |s|
  {
    if s == [] then []
    else if p(s[0]) then (if inRun then [] else [c]) + CollapseFrom(s[1..], p, c, true)
    else [s[0]] + CollapseFrom(s[1..], p, c, false)
  }

  function CollapseRuns(s: string, p: char -> bool, c: char): string {
    CollapseFrom(s, p, c, false)
  }

  /** The result holds only `c` and characters of `s` outside the class. */
  lemma {:induction false} CollapseFromChars(s: string, p: char -> bool, c: char, inRun: bool)
    ensures forall ch :: ch in CollapseFrom(s, p, c, inRun) ==> ch == c || (!p(ch) && ch in s)
    decreases |s|
  {
    if s != [] {
      CollapseFromChars(s[1..], p, c, p(s[0]));
    }
  }

  /** No two adjacent characters of `s` both satisfy `p`. */
  predicate NoAdjacent(s: string, p: char -> bool) {
    forall i :: 0 <= i < |s| - 1 ==> !(p(s[i]) && p(s[i + 1]))
  }

  /**
   * When `c` itself belongs to the class, no two class characters are adjacent afterwards,
   * and a scan that starts inside a run does not start with a class character.
   */
  lemma {:induction false} CollapseFromSeparated(s: string, p: char -> bool, c: char, inRun: bool)
    requires p(c)
    ensures inRun && CollapseFrom(s, p, c, inRun) != [] ==> !p(CollapseFrom(s, p, c, inRun)[0])
    ensures NoAdjacent(CollapseFrom(s, p, c, inRun), p)
    decreases |s|
  {
    if s != [] {
      var rest := CollapseFrom(s[1..], p, c, p(s[0]));
      CollapseFromSeparated(s[1..], p, c, p(s[0]));
      var head := if !p(s[0]) then [s[0]] else if inRun then [] else [c];
      var r := CollapseFrom(s, p, c, inRun);
      assert r == head + rest;
      if head != [] {
        forall i | 0 <= i < |r| - 1 ensures !(p(r[i]) && p(r[i + 1])) {
          if i > 0 {
            assert r[i] == rest[i - 1] && r[i + 1] == rest[i];
          } else {
            assert r[0] == head[0] && r[1] == rest[0];
          }
        }
      }
    }
  }

  /** A string with no character of the class is unchanged. */
  lemma {:induction false} CollapseFromNone(s: string, p: char -> bool, c: char, inRun: bool)
    requires forall i :: 0 <= i < |s| ==> !p(s[i])
    ensures CollapseFrom(s, p, c, inRun) == s
    decreases |s|
  {
    if s != [] {
      CollapseFromNone(s[1..], p, c, false);
    }
  }

  /** A string whose class characters are all `c` and never adjacent is unchanged. */
  lemma {:induction false} CollapseFromFixed(s: string, p: char -> bool, c: char, inRun: bool)
    requires forall i :: 0 <= i < |s| ==> p(s[i]) ==> s[i] == c
    requires NoAdjacent(s, p)
    requires inRun ==> s == [] || !p(s[0])
    ensures CollapseFrom(s, p, c, inRun) == s
    decreases |s|
  {
    if s != [] {
      CollapseFromFixed(s[1..], p, c, p(s[0]));
    }
  }

  /** The scan of `a + b` is the scan of `a` followed by the scan of `b` from where `a` left off. */
  lemma {:induction false} CollapseFromAppend(a: string, b: string, p: char -> bool, c: char, inRun: bool)
    ensures CollapseFrom(a + b, p, c, inRun)
      == CollapseFrom(a, p, c, inRun) + CollapseFrom(b, p, c, if a == [] then inRun else p(a[|a| - 1]))
    decreases |a|
  {
    if a == [] {
      assert a + b == b;
    } else {
      assert (a + b)[0] == a[0] && (a + b)[1..] == a[1..] + b;
      CollapseFromAppend(a[1..], b, p, c, p(a[0]));
    }
  }

  /** A whole run seen from inside a run contributes nothing. */
  lemma {:induction false} CollapseFromRun(w: string, p: char -> bool, c: char)
    requires forall i :: 0 <= i < |w| ==> p(w[i])
    ensures CollapseFrom(w, p, c, true) == []
    decreases |w|
  {
    if w != [] {
      CollapseFromRun(w[1..], p, c);
    }
  }

  /**
   * Each inner run is replaced by one `c`: for a run `w` with no class character on either
   * side, the result is the results of both sides joined by one `c`.
   */
  lemma CollapseRunsInnerRun(x: string, w: string, y: string, p: char -> bool, c: char)
    requires x == [] || !p(x[|x| - 1])
    requires w != [] && forall i :: 0 <= i < |w| ==> p(w[i])
    requires y == [] || !p(y[0])
    ensures CollapseRuns(x + w + y, p, c) == CollapseRuns(x, p, c) + [c] + CollapseRuns(y, p, c)
  {
    CollapseFromAppend(x + w, y, p, c, false);
    CollapseFromAppend(x, w, p, c, false);
    CollapseFromRun(w[1..], p, c);
    assert CollapseFrom(w, p, c, false) == [c];
    if y != [] {
      assert CollapseFrom(y, p, c, true) == CollapseFrom(y, p, c, false);
    }
  }

  /** Number of maximal runs of class characters, not counting a run already under way. */
  function RunsFrom(s: string, p: char -> bool, inRun: bool): nat
    decreases |s|
  {
    if s == [] then 0
    else if p(s[0]) then (if inRun then 0 else 1) + RunsFrom(s[1..], p, true)
    else RunsFrom(s[1..], p, false)
  }

  /** Number of whitespace-separated words. */
  function Words(s: string): nat {
    RunsFrom(s, IsNotWhitespace, false)
  }

  /** `s.split(/\s+/)`, from a state inside or outside a whitespace run. */
  function SplitWhitespaceFrom(s: string, inRun: bool): (r: seq<string>)
    ensures |r| >= 1
    decreases |s|
  {
    if s == [] then [[]]
    else if IsWhitespace(s[0]) then
      (if inRun then [] else [[]]) + SplitWhitespaceFrom(s[1..], true)
    else
      var rest := SplitWhitespaceFrom(s[1..], false);
      [[s[0]] + rest[0]] + rest[1..]
  }

  /** `s.split(/\s+/)`. */
  function SplitWhitespace(s: string): (r: seq<string>)
    ensures |r| >= 1
  {
    SplitWhitespaceFrom(s, false)
  }

  /** `split(/\s+/)` yields one more piece than there are whitespace runs. */
  lemma {:induction false} SplitWhitespaceLength(s: string, inRun: bool)
    ensures |SplitWhitespaceFrom(s, inRun)| == RunsFrom(s, IsWhitespace, inRun) + 1
    decreases |s|
  {
    if s != [] {
      SplitWhitespaceLength(s[1..], IsWhitespace(s[0]));
    }
  }

  /**
   * In a string that does not end in white space, every whitespace run is followed by a
   * word: words and whitespace runs alternate.
   */
  lemma {:induction false} WordsAlternate(s: string, inWord: bool, inSpace: bool)
    requires !(inWord && inSpace)
    requires s == [] || !IsWhitespace(s[|s| - 1])
    ensures RunsFrom(s, IsNotWhitespace, inWord)
      == RunsFrom(s, IsWhitespace, inSpace)
         + (if s != [] && (if IsWhitespace(s[0]) then inSpace else !inWord) then 1 else 0)
    decreases |s|
  {
    if s != [] {
      var t := s[1..];
      assert t != [] ==> t[|t| - 1] == s[|s| - 1];
      WordsAlternate(t, !IsWhitespace(s[0]), IsWhitespace(s[0]));
    }
  }

  /** On trimmed text, `split(/\s+/)` gives one piece per word, and one empty piece for the empty string. */
  lemma SplitWhitespaceWords(s: string)
    requires s == [] || (!IsWhitespace(s[0]) && !IsWhitespace(s[|s| - 1]))
    ensures |SplitWhitespace(s)| == if s == [] then 1 else Words(s)
  {
    SplitWhitespaceLength(s, false);
    WordsAlternate(s, false, false);
  }

  /** How often `c` occurs in `s`. */
  function Occurrences(s: string, c: char): nat
    decreases |s|
  {
    if s == [] then 0 else (if s[0] == c then 1 else 0) + Occurrences(s[1..], c)
  }

  lemma {:induction false} OccurrencesAppend(a: string, b: string, c: char)
    ensures Occurrences(a + b, c) == Occurrences(a, c) + Occurrences(b, c)
    decreases |a|
  {
    if a == [] {
      assert a + b == b;
    } else {
      assert (a + b)[0] == a[0] && (a + b)[1..] == a[1..] + b;
      OccurrencesAppend(a[1..], b, c);
    }
  }

  /** `s.split(sep)` for a one-character separator. */
  function Split(s: string, sep: char): (r: seq<string>)
    ensures |r| >= 1
    decreases |s|
  {
    if s == [] then [[]]
    else
      var rest := Split(s[1..], sep);
      if s[0] == sep then [[]] + rest else [[s[0]] + rest[0]] + rest[1..]
  }

  /** `parts.join(sep)`. */
  function Join(parts: seq<string>, sep: string): string
    decreases |parts|
  {
    if parts == [] then []
    else if |parts| == 1 then parts[0]
    else parts[0] + sep + Join(parts[1..], sep)
  }

  /** Splitting on a character gives one more piece than the character's occurrences. */
  lemma {:induction false} SplitLength(s: string, sep: char)
    ensures |Split(s, sep)| == Occurrences(s, sep) + 1
    decreases |s|
  {
    if s != [] {
      SplitLength(s[1..], sep);
    }
  }

  /** Joining the pieces of a split with the separator gives the string back. */
  lemma {:induction false} SplitJoin(s: string, sep: char)
    ensures Join(Split(s, sep), [sep]) == s
    decreases |s|
  {
    if s != [] {
      var rest := Split(s[1..], sep);
      SplitJoin(s[1..], sep);
      if s[0] == sep {
        assert Join([[]] + rest, [sep]) == [] + [sep] + Join(rest, [sep]);
      } else {
        var r := [[s[0]] + rest[0]] + rest[1..];
        if |rest| == 1 {
          assert Join(rest, [sep]) == rest[0];
        } else {
          assert Join(rest, [sep]) == rest[0] + [sep] + Join(rest[1..], [sep]);
          assert r[1..] == rest[1..];
        }
      }
    }
  }

  /** Occurrences of `c` in a join of non-empty `parts` with the one-character separator `c`. */
  lemma {:induction false} JoinOccurrences(parts: seq<string>, c: char)
    requires parts != []
    ensures Occurrences(Join(parts, [c]), c) == |parts| - 1 + SumOccurrences(parts, c)
    decreases |parts|
  {
    if |parts| > 1 {
      JoinOccurrences(parts[1..], c);
      OccurrencesAppend(parts[0] + [c], Join(parts[1..], [c]), c);
      OccurrencesAppend(parts[0], [c], c);
      assert Occurrences([c], c) == 1;
    }
  }

  /** Total occurrences of `c` over all `parts`. */
  function SumOccurrences(parts: seq<string>, c: char): nat
    decreases |parts|
  {
    if parts == [] then 0 else Occurrences(parts[0], c) + SumOccurrences(parts[1..], c)
  }

  /** `needle` is a prefix of `s`. */
  predicate IsPrefix(needle: string, s: string) {
    |needle| <= |s| && s[..|needle|] == needle
  }

  /** `needle` occurs in `haystack` starting at position `i`. */
  predicate OccursAt(haystack: string, needle: string, i: int) {
    0 <= i && i + |needle| <= |haystack| && haystack[i..i + |needle|] == needle
  }

  /** An occurrence one place further on is an occurrence in the rest of the string. */
  lemma OccursAtShift(haystack: string, needle: string, i: nat)
    requires haystack != []
    ensures OccursAt(haystack, needle, i + 1) <==> OccursAt(haystack[1..], needle, i)
  {
    if i + 1 + |needle| <= |haystack| {
      assert haystack[i + 1..i + 1 + |needle|] == haystack[1..][i..i + |needle|];
    }
  }

  /** `haystack.includes(needle)`: `needle` occurs at some position of `haystack`. */
  predicate Contains(haystack: string, needle: string)
    ensures Contains(haystack, needle) <==> exists i :: OccursAt(haystack, needle, i)
    decreases |haystack|
  {
    if IsPrefix(needle, haystack) then
      assert OccursAt(haystack, needle, 0);
      true
    else if haystack == [] then false
    else
      var rest := haystack[1..];
      assert forall i :: OccursAt(haystack, needle, i) ==> i >= 1 && OccursAt(rest, needle, i - 1) by {
        forall i | OccursAt(haystack, needle, i)
          ensures i >= 1 && OccursAt(rest, needle, i - 1)
        {
          assert i != 0;
          OccursAtShift(haystack, needle, i - 1);
        }
      }
      assert forall i :: OccursAt(rest, needle, i) ==> OccursAt(haystack, needle, i + 1) by {
        forall i | OccursAt(rest, needle, i)
          ensures OccursAt(haystack, needle, i + 1)
        {
          OccursAtShift(haystack, needle, i);
        }
      }
      Contains(rest, needle)
  }
}

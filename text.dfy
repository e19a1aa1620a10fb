/**
 * The string operations of the JavaScript runtime that the catalog relies on:
 * `toLowerCase`, `trim`, `includes`, `join`, `split` on a single character and
 * `split` on a regular expression that matches runs of separator characters.
 */
module Text {

  /** The characters JavaScript's `\s` matches and `trim` removes (WhiteSpace and LineTerminator). */
  predicate IsSpace(c: char)
  {
    c == '\t' || c == '\n' || c == '\U{000B}' || c == '\U{000C}' || c == '\r' || c == ' '
    || c == '\U{00A0}' || c == '\U{1680}' || ('\U{2000}' <= c <= '\U{200A}')
    || c == '\U{2028}' || c == '\U{2029}' || c == '\U{202F}' || c == '\U{205F}'
    || c == '\U{3000}' || c == '\U{FEFF}'
  }

  /** A string made of whitespace only (the empty string included). */
  predicate IsBlank(s: string)
  {
    forall i :: 0 <= i < |s| ==> IsSpace(s[i])
  }

  /** Lower-casing of one character, restricted to the ASCII letters. */
  function LowerChar(c: char): char
  {
    if 'A' <= c <= 'Z' then (c as int + 32) as char else c
  }

  /** `s.toLowerCase()`, restricted to the ASCII letters. */
  function ToLower(s: string): (r: string)
    ensures |r| == |s|
    ensures forall i :: 0 <= i < |s| ==> r[i] == LowerChar(s[i])
    ensures forall i :: 0 <= i < |r| ==> !('A' <= r[i] <= 'Z')
  {
    if s == [] then [] else [LowerChar(s[0])] + ToLower(s[1..])
  }

  /** Text without ASCII capitals is left alone by `ToLower`. */
  lemma ToLowerKeeps(s: string)
    requires forall i :: 0 <= i < |s| ==> !('A' <= s[i] <= 'Z')
    ensures ToLower(s) == s
  {
  }

  function TrimStart(s: string): (r: string)
    ensures |r| <= |s| && r == s[|s| - |r|..]
    ensures r == [] || !IsSpace(r[0])
    ensures IsBlank(s[..|s| - |r|])
  {
    if s != [] && IsSpace(s[0]) then TrimStart(s[1..]) else s
  }

  function TrimEnd(s: string): (r: string)
    ensures |r| <= |s| && r == s[..|r|]
    ensures r == [] || !IsSpace(r[|r| - 1])
    ensures IsBlank(s[|r|..])
  {
    if s != [] && IsSpace(s[|s| - 1]) then TrimEnd(s[..|s| - 1]) else s
  }

  /** `s.trim()`: the string without its leading and trailing whitespace. */
  function Trim(s: string): string
  {
    TrimEnd(TrimStart(s))
  }

  /** `!s.trim()` holds exactly for the blank strings. */
  lemma TrimEmptyIffBlank(s: string)
    ensures Trim(s) == [] <==> IsBlank(s)
  {
    var t := TrimStart(s);
    if Trim(s) == [] {
      assert IsBlank(t[0..]);
      assert t == [];
      assert s[..|s|] == s;
    }
  }

  /** `text.startsWith(word)`. */
  predicate StartsWith(text: string, word: string)
  {
    |word| <= |text| && text[..|word|] == word
  }

  /** `word` occurs in `text` starting at position `i`. */
  predicate OccursAt(text: string, word: string, i: nat)
  {
    i + |word| <= |text| && text[i..i + |word|] == word
  }

  /** `text.includes(word)`: `word` occurs in `text` at some position. */
  predicate Contains(text: string, word: string)
  {
    StartsWith(text, word) || (text != [] && Contains(text[1..], word))
  }

  /** The scan of `Contains` finds `word` exactly when it occurs at some position. */
  lemma {:induction false} ContainsIff(text: string, word: string)
    ensures Contains(text, word) <==> exists i: nat :: OccursAt(text, word, i)
  {
    if StartsWith(text, word) {
      assert OccursAt(text, word, 0);
    } else if text != [] {
      ContainsIff(text[1..], word);
      if Contains(text[1..], word) {
        var i: nat :| OccursAt(text[1..], word, i);
        assert text[i + 1..i + 1 + |word|] == text[1..][i..i + |word|];
        assert OccursAt(text, word, i + 1);
      }
      forall i: nat | 0 < i && OccursAt(text, word, i) ensures Contains(text[1..], word) {
        assert text[1..][i - 1..i - 1 + |word|] == text[i..i + |word|];
        assert OccursAt(text[1..], word, i - 1);
      }
    }
  }

  /** A word contained in `text` stays contained when text is added around it. */
  lemma ContainsWithin(p: string, text: string, q: string, word: string)
    requires Contains(text, word)
    ensures Contains(p + text + q, word)
  {
    ContainsIff(text, word);
    var i: nat :| OccursAt(text, word, i);
    var wide := p + text + q;
    assert wide[|p| + i..|p| + i + |word|] == text[i..i + |word|];
    assert OccursAt(wide, word, |p| + i);
    ContainsIff(wide, word);
  }

  /** A word without ASCII capitals that `text` contains is also contained in `ToLower(text)`. */
  lemma ToLowerKeepsContains(text: string, word: string)
    requires Contains(text, word)
    requires forall j :: 0 <= j < |word| ==> !('A' <= word[j] <= 'Z')
    ensures Contains(ToLower(text), word)
  {
    ContainsIff(text, word);
    var i: nat :| OccursAt(text, word, i);
    var lower := ToLower(text);
    forall j | 0 <= j < |word| ensures lower[i + j] == word[j] {
      assert text[i + j] == text[i..i + |word|][j];
    }
    assert lower[i..i + |word|] == word;
    assert OccursAt(lower, word, i);
    ContainsIff(lower, word);
  }

  /** A character other than a lower-case ASCII letter occurs in `ToLower(text)` only if it occurs in `text`. */
  lemma ToLowerAddsNoChar(text: string, c: char)
    requires c !in text && !('a' <= c <= 'z')
    ensures c !in ToLower(text)
  {
    var lower := ToLower(text);
    forall i | 0 <= i < |lower| ensures lower[i] != c {
      assert text[i] in text;
    }
  }

  /** `parts.join(sep)`. */
  function Join(parts: seq<string>, sep: string): string
  {
    if |parts| == 0 then []
    else if |parts| == 1 then parts[0]
    else parts[0] + sep + Join(parts[1..], sep)
  }

  /** Every piece occurs in the joined text. */
  lemma {:induction false} JoinContainsPart(parts: seq<string>, sep: string, k: nat)
    requires k < |parts|
    ensures Contains(Join(parts, sep), parts[k])
    decreases |parts|
  {
    if |parts| == 1 {
      assert StartsWith(parts[0], parts[0]);
    } else if k == 0 {
      assert StartsWith(Join(parts, sep), parts[0]) by {
        assert Join(parts, sep)[..|parts[0]|] == parts[0];
      }
    } else {
      JoinContainsPart(parts[1..], sep, k - 1);
      ContainsWithin(parts[0] + sep, Join(parts[1..], sep), [], parts[k]);
      assert parts[0] + sep + Join(parts[1..], sep) + [] == Join(parts, sep);
    }
  }

  /** A character found neither in the separator nor in any piece is not in the joined text. */
  lemma {:induction false} JoinAddsNoChar(parts: seq<string>, sep: string, c: char)
    requires c !in sep && forall k :: 0 <= k < |parts| ==> c !in parts[k]
    ensures c !in Join(parts, sep)
    decreases |parts|
  {
    if |parts| > 1 {
      JoinAddsNoChar(parts[1..], sep, c);
    }
  }

  /** `s.split(c)` for a one-character separator: every occurrence of `c` ends a piece. */
  function SplitOn(s: string, c: char): (parts: seq<string>)
    ensures |parts| >= 1
    ensures forall k, i :: 0 <= k < |parts| && 0 <= i < |parts[k]| ==> parts[k][i] != c
  {
    if s == [] then [[]]
    else if s[0] == c then [[]] + SplitOn(s[1..], c)
    else
      var tail := SplitOn(s[1..], c);
      [[s[0]] + tail[0]] + tail[1..]
  }

  /** Joining the pieces of `s.split(c)` with `c` gives `s` back. */
  lemma {:induction false} JoinSplitOn(s: string, c: char)
    ensures Join(SplitOn(s, c), [c]) == s
  {
    if s != [] {
      JoinSplitOn(s[1..], c);
      if s[0] == c {
        JoinEmptyFirst(SplitOn(s[1..], c), [c]);
      } else {
        JoinConsHead(s[0], SplitOn(s[1..], c), [c]);
      }
      assert s == [s[0]] + s[1..];
    }
  }

  /** What is left of `s` after the run of separators it starts with. */
  function SkipRun(s: string, sep: char -> bool): (r: string)
    requires s != [] && sep(s[0])
    ensures |r| < |s| && r == s[|s| - |r|..]
    ensures r == [] || !sep(r[0])
    ensures forall i :: 0 <= i < |s| - |r| ==> sep(s[i])
  {
    if |s| > 1 && sep(s[1]) then SkipRun(s[1..], sep) else s[1..]
  }

  /**
   * `s.split(R)` where the regular expression R matches one or more consecutive
   * separator characters: each maximal run of separators ends a piece, so a
   * leading run gives an empty first piece and a trailing run an empty last one.
   */
  function SplitRuns(s: string, sep: char -> bool): (parts: seq<string>)
    ensures |parts| >= 1
    decreases |s|
  {
    if s == [] then [[]]
    else if sep(s[0]) then [[]] + SplitRuns(SkipRun(s, sep), sep)
    else
      var tail := SplitRuns(s[1..], sep);
      [[s[0]] + tail[0]] + tail[1..]
  }

  /**
   * The pieces of `SplitRuns` hold no separator, every piece strictly between
   * the first and the last is non-empty, the first piece is empty exactly when
   * `s` is empty or starts with a separator, the last exactly when `s` is
   * empty or ends with one, and there is a single piece exactly when `s` holds no separator.
   */
  lemma {:induction false} SplitRunsShape(s: string, sep: char -> bool)
    ensures Shaped(s, SplitRuns(s, sep), sep)
    decreases |s|
  {
    if s == [] {
    } else if sep(s[0]) {
      var rest := SkipRun(s, sep);
      SplitRunsShape(rest, sep);
      ShapedSkip(s, rest, SplitRuns(rest, sep), sep);
    } else {
      SplitRunsShape(s[1..], sep);
      ShapedCons(s, SplitRuns(s[1..], sep), sep);
    }
  }

  /** What `SplitRunsShape` states of the pieces `parts` of `s`. */
  ghost predicate Shaped(s: string, parts: seq<string>, sep: char -> bool)
  {
    && |parts| >= 1
    && (forall k, i :: 0 <= k < |parts| && 0 <= i < |parts[k]| ==> !sep(parts[k][i]))
    && (forall k :: 0 < k < |parts| - 1 ==> parts[k] != [])
    && (parts[0] == [] <==> s == [] || sep(s[0]))
    && (parts[|parts| - 1] == [] <==> s == [] || sep(s[|s| - 1]))
    && (|parts| == 1 <==> forall i :: 0 <= i < |s| ==> !sep(s[i]))
  }

  /** The shape survives putting a run of separators in front. */
  lemma ShapedSkip(s: string, rest: string, tail: seq<string>, sep: char -> bool)
    requires s != [] && sep(s[0]) && |rest| < |s| && rest == s[|s| - |rest|..]
    requires rest == [] || !sep(rest[0])
    requires forall i :: 0 <= i < |s| - |rest| ==> sep(s[i])
    requires Shaped(rest, tail, sep)
    ensures Shaped(s, [[]] + tail, sep)
  {
    var parts := [[]] + tail;
    assert forall k :: 0 < k < |parts| ==> parts[k] == tail[k - 1];
    if rest == [] {
      assert sep(s[|s| - 1]);
    } else {
      assert s[|s| - 1] == rest[|rest| - 1];
    }
  }

  /** The shape survives putting a character that is no separator in front. */
  lemma ShapedCons(s: string, tail: seq<string>, sep: char -> bool)
    requires s != [] && !sep(s[0]) && Shaped(s[1..], tail, sep)
    ensures Shaped(s, [[s[0]] + tail[0]] + tail[1..], sep)
  {
    var parts := [[s[0]] + tail[0]] + tail[1..];
    assert forall k :: 0 < k < |parts| ==> parts[k] == tail[k];
    forall k, i | 0 <= k < |parts| && 0 <= i < |parts[k]| ensures !sep(parts[k][i]) {
      if k == 0 && i > 0 {
        assert parts[0][i] == tail[0][i - 1];
      }
    }
    if |s| > 1 {
      assert s[|s| - 1] == s[1..][|s| - 2];
      if |parts| == 1 {
        assert !sep(s[1..][|s| - 2]);
      } else {
        assert parts[|parts| - 1] == tail[|tail| - 1];
      }
    }
    if |parts| == 1 {
      forall i | 0 <= i < |s| ensures !sep(s[i]) {
        if i > 0 { assert s[i] == s[1..][i - 1]; }
      }
    } else {
      var j :| 0 <= j < |s[1..]| && sep(s[1..][j]);
      assert sep(s[j + 1]);
    }
  }

  /** A string without separators is split into itself alone. */
  lemma {:induction false} SplitRunsNone(s: string, sep: char -> bool)
    requires forall i :: 0 <= i < |s| ==> !sep(s[i])
    ensures SplitRuns(s, sep) == [s]
    decreases |s|
  {
    if s != [] {
      SplitRunsNone(s[1..], sep);
      assert s == [s[0]] + s[1..];
    }
  }

  /** Two separator-free words around one separator are split into those two words. */
  lemma {:induction false} SplitRunsPair(a: string, c: char, b: string, sep: char -> bool)
    requires forall i :: 0 <= i < |a| ==> !sep(a[i])
    requires forall i :: 0 <= i < |b| ==> !sep(b[i])
    requires sep(c) && b != []
    ensures SplitRuns(a + [c] + b, sep) == [a, b]
    decreases |a|
  {
    var s := a + [c] + b;
    if a == [] {
      assert s == [c] + b;
      assert SkipRun(s, sep) == b;
      SplitRunsNone(b, sep);
    } else {
      SplitRunsPair(a[1..], c, b, sep);
      assert s[1..] == a[1..] + [c] + b;
      assert [a[0]] + a[1..] == a;
    }
  }

  /** The characters of `s` that are not separators, in order. */
  function Kept(s: string, sep: char -> bool): string
  {
    if s == [] then [] else (if sep(s[0]) then [] else [s[0]]) + Kept(s[1..], sep)
  }

  /** No character other than a separator is lost or invented by `SplitRuns`. */
  lemma {:induction false} SplitRunsKeeps(s: string, sep: char -> bool)
    ensures Join(SplitRuns(s, sep), []) == Kept(s, sep)
    decreases |s|
  {
    if s == [] {
    } else if sep(s[0]) {
      var rest := SkipRun(s, sep);
      SplitRunsKeeps(rest, sep);
      KeptOfRun(s, rest, sep);
      assert Join([[]] + SplitRuns(rest, sep), []) == Join(SplitRuns(rest, sep), []) by {
        JoinEmptyFirst(SplitRuns(rest, sep), []);
      }
    } else {
      SplitRunsKeeps(s[1..], sep);
      var tail := SplitRuns(s[1..], sep);
      assert Join([[s[0]] + tail[0]] + tail[1..], []) == [s[0]] + Join(tail, []) by {
        JoinConsHead(s[0], tail, []);
      }
    }
  }

  /**
   * `s` with every maximal run of separators replaced by the single character
   * `c`, read character by character: `afterSep` says whether the previous
   * character was a separator.
   */
  function SqueezeFrom(s: string, sep: char -> bool, c: char, afterSep: bool): string
  {
    if s == [] then []
    else if sep(s[0]) then (if afterSep then [] else [c]) + SqueezeFrom(s[1..], sep, c, true)
    else [s[0]] + SqueezeFrom(s[1..], sep, c, false)
  }

  /** `s` with every maximal run of separators replaced by the single character `c`. */
  function Squeeze(s: string, sep: char -> bool, c: char): string
  {
    SqueezeFrom(s, sep, c, false)
  }

  /**
   * Splitting on runs of separators breaks exactly at the runs: joining the
   * pieces with one separator character gives the text with every run
   * squeezed to that character.
   */
  lemma {:induction false} SplitRunsJoin(s: string, sep: char -> bool, c: char)
    ensures Join(SplitRuns(s, sep), [c]) == Squeeze(s, sep, c)
    decreases |s|
  {
    if s == [] {
    } else if sep(s[0]) {
      var rest := SkipRun(s, sep);
      SplitRunsJoin(rest, sep, c);
      JoinEmptyFirst(SplitRuns(rest, sep), [c]);
      SqueezeOfRun(s[1..], rest, sep, c);
      SqueezeAfterSepIrrelevant(rest, sep, c);
    } else {
      SplitRunsJoin(s[1..], sep, c);
      JoinConsHead(s[0], SplitRuns(s[1..], sep), [c]);
    }
  }

  /**
   * The pieces of a split on runs are the only separator-free pieces whose
   * join with a separator character `c` is the squeezed text.
   */
  lemma SplitRunsUnique(s: string, sep: char -> bool, c: char, parts: seq<string>)
    requires sep(c) && |parts| >= 1
    requires forall k, i :: 0 <= k < |parts| && 0 <= i < |parts[k]| ==> !sep(parts[k][i])
    requires Join(parts, [c]) == Squeeze(s, sep, c)
    ensures parts == SplitRuns(s, sep)
  {
    SplitRunsShape(s, sep);
    SplitRunsJoin(s, sep, c);
    JoinInjective(parts, SplitRuns(s, sep), c);
  }

  /** Joining pieces that do not hold the separator character loses nothing. */
  lemma {:induction false} JoinInjective(p: seq<string>, q: seq<string>, c: char)
    requires |p| >= 1 && |q| >= 1
    requires forall k, i :: 0 <= k < |p| && 0 <= i < |p[k]| ==> p[k][i] != c
    requires forall k, i :: 0 <= k < |q| && 0 <= i < |q[k]| ==> q[k][i] != c
    requires Join(p, [c]) == Join(q, [c])
    ensures p == q
    decreases |p|
  {
    var j := Join(p, [c]);
    JoinFirstSeparator(p, c);
    JoinFirstSeparator(q, c);
    if |p| > 1 || |q| > 1 {
      assert |p| > 1 && |q| > 1 && |p[0]| == |q[0]|;
      assert p[0] == j[..|p[0]|] == q[0];
      assert Join(p[1..], [c]) == j[|p[0]| + 1..] == Join(q[1..], [c]);
      JoinInjective(p[1..], q[1..], c);
      assert p == [p[0]] + p[1..] && q == [q[0]] + q[1..];
    }
  }

  /**
   * The joined text starts with the first piece; the separator character
   * follows it when there are more pieces, and occurs nowhere when there are none.
   */
  lemma JoinFirstSeparator(p: seq<string>, c: char)
    requires |p| >= 1
    requires forall k, i :: 0 <= k < |p| && 0 <= i < |p[k]| ==> p[k][i] != c
    ensures var j := Join(p, [c]);
      && |p[0]| <= |j| && j[..|p[0]|] == p[0]
      && (forall i :: 0 <= i < |p[0]| ==> j[i] != c)
      && (|p| > 1 ==> |p[0]| < |j| && j[|p[0]|] == c && j[|p[0]| + 1..] == Join(p[1..], [c]))
      && (|p| == 1 ==> forall i :: 0 <= i < |j| ==> j[i] != c)
  {
    var j := Join(p, [c]);
    if |p| > 1 {
      assert j == p[0] + [c] + Join(p[1..], [c]);
      assert j[..|p[0]|] == p[0];
      assert j[|p[0]| + 1..] == Join(p[1..], [c]);
    }
  }

  /** Separators that follow a separator are dropped by `SqueezeFrom`. */
  lemma {:induction false} SqueezeOfRun(s: string, rest: string, sep: char -> bool, c: char)
    requires |rest| <= |s| && rest == s[|s| - |rest|..]
    requires forall i :: 0 <= i < |s| - |rest| ==> sep(s[i])
    ensures SqueezeFrom(s, sep, c, true) == SqueezeFrom(rest, sep, c, true)
    decreases |s|
  {
    if |s| > |rest| {
      SqueezeOfRun(s[1..], rest, sep, c);
    } else {
      assert s == rest;
    }
  }

  /** Whether a separator came before does not matter when none starts the text. */
  lemma SqueezeAfterSepIrrelevant(s: string, sep: char -> bool, c: char)
    requires s == [] || !sep(s[0])
    ensures SqueezeFrom(s, sep, c, true) == SqueezeFrom(s, sep, c, false)
  {
  }

  /** An empty first piece contributes only its separator. */
  lemma JoinEmptyFirst(parts: seq<string>, sep: string)
    requires |parts| >= 1
    ensures Join([[]] + parts, sep) == sep + Join(parts, sep)
  {
    assert ([[]] + parts)[1..] == parts;
  }

  /** A character put in front of the first piece ends up in front of the joined text. */
  lemma JoinConsHead(c: char, parts: seq<string>, sep: string)
    requires |parts| >= 1
    ensures Join([[c] + parts[0]] + parts[1..], sep) == [c] + Join(parts, sep)
  {
    var p := [[c] + parts[0]] + parts[1..];
    if |parts| > 1 {
      assert p[1..] == parts[1..];
    }
  }

  lemma {:induction false} KeptOfRun(s: string, rest: string, sep: char -> bool)
    requires |rest| <= |s| && rest == s[|s| - |rest|..]
    requires forall i :: 0 <= i < |s| - |rest| ==> sep(s[i])
    ensures Kept(s, sep) == Kept(rest, sep)
    decreases |s|
  {
    if |s| > |rest| {
      KeptOfRun(s[1..], rest, sep);
    } else {
      assert s == rest;
    }
  }
}

/**
  Posix path and string helpers the runner utilities use: `path.sep` fixed to
  '/', `path.isAbsolute`, `path.dirname`, a non-normalising `path.join`, and the
  string operations `split`, `join`, `replace`, `startsWith`, `endsWith`.
 */
module Paths {

  const Sep: char := '/'

  predicate IsAbsolute(p: string) {
    |p| > 0 && p[0] == Sep
  }

  predicate StartsWith(s: string, prefix: string) {
    |prefix| <= |s| && s[..|prefix|] == prefix
  }

  predicate EndsWith(s: string, suffix: string) {
    |suffix| <= |s| && s[|s| - |suffix|..] == suffix
  }

  /** `path.join(a, b)` without normalisation of `.`, `..` or repeated separators. */
  function Join(a: string, b: string): (r: string)
    ensures EndsWith(r, b)
    ensures a != [] ==> StartsWith(r, a)
  {
    if a == [] then b
    else if a[|a| - 1] == Sep then a + b
    else a + [Sep] + b
  }

  /**
    Scanning `p` leftwards from index `i`, the index of the last separator that
    follows a non-separator character (trailing separators are skipped), or -1.
    Index 0 is never examined, as in Node's posix `dirname`.
   */
  function DirEnd(p: string, i: nat, matchedSlash: bool): (e: int)
    requires i < |p|
    ensures e == -1 || 1 <= e <= i
    decreases i
  {
    if i < 1 then -1
    else if p[i] == Sep then (if !matchedSlash then i else DirEnd(p, i - 1, true))
    else DirEnd(p, i - 1, false)
  }

  /** `path.dirname(p)` on posix. */
  function Dirname(p: string): (r: string)
    ensures r != []
  {
    if p == [] then "."
    else
      var end := DirEnd(p, |p| - 1, true);
      if end == -1 then (if p[0] == Sep then "/" else ".")
      else if p[0] == Sep && end == 1 then "//"
      else p[..end]
  }

  /** Number of occurrences of `c` in `s`. */
  function Count(s: string, c: char): nat {
    if s == [] then 0 else (if s[0] == c then 1 else 0) + Count(s[1..], c)
  }

  /** `s.split(c)`: the pieces between occurrences of `c` (an empty string gives one empty piece). */
  function Split(s: string, c: char): (parts: seq<string>)
    ensures |parts| >= 1
  {
    if s == [] then [""]
    else
      var rest := Split(s[1..], c);
      if s[0] == c then [""] + rest else [[s[0]] + rest[0]] + rest[1..]
  }

  /** `parts.join(glue)`. */
  function JoinWith(parts: seq<string>, glue: string): string {
    if parts == [] then ""
    else if |parts| == 1 then parts[0]
    else parts[0] + glue + JoinWith(parts[1..], glue)
  }

  /** Every occurrence of `c` replaced by `glue`. */
  function ReplaceAll(s: string, c: char, glue: string): string {
    if s == [] then "" else (if s[0] == c then glue else [s[0]]) + ReplaceAll(s[1..], c, glue)
  }

  /** `s.replace(c, glue)` with a one-character string pattern: only the first occurrence. */
  function ReplaceFirst(s: string, c: char, glue: string): string {
    if s == [] then ""
    else if s[0] == c then glue + s[1..]
    else [s[0]] + ReplaceFirst(s[1..], c, glue)
  }

  /** Splitting on `c` gives one piece more than there are occurrences of `c`. */
  lemma {:induction false} SplitLength(s: string, c: char)
    ensures |Split(s, c)| == Count(s, c) + 1
  {
    if s != [] {
      SplitLength(s[1..], c);
    }
  }

  /** A string has fewer than two pieces exactly when it holds no `c`. */
  lemma SplitSingleIffAbsent(s: string, c: char)
    ensures |Split(s, c)| < 2 <==> c !in s
  {
    SplitLength(s, c);
    CountZeroIffAbsent(s, c);
  }

  lemma {:induction false} CountZeroIffAbsent(s: string, c: char)
    ensures Count(s, c) == 0 <==> c !in s
  {
    if s != [] {
      CountZeroIffAbsent(s[1..], c);
      assert s == [s[0]] + s[1..];
    }
  }

  /** Splitting on `c` and joining with `glue` replaces every `c` by `glue`. */
  lemma {:induction false} JoinSplit(s: string, c: char, glue: string)
    ensures JoinWith(Split(s, c), glue) == ReplaceAll(s, c, glue)
  {
    if s != [] {
      var rest := Split(s[1..], c);
      JoinSplit(s[1..], c, glue);
      if s[0] == c {
        assert Split(s, c) == [""] + rest;
        assert ([""] + rest)[1..] == rest;
        assert ReplaceAll(s, c, glue) == glue + ReplaceAll(s[1..], c, glue);
      } else {
        assert Split(s, c) == [[s[0]] + rest[0]] + rest[1..];
        assert ReplaceAll(s, c, glue) == [s[0]] + ReplaceAll(s[1..], c, glue);
        JoinPrepend(s[0], rest, glue);
      }
    }
  }

  /** Prepending a character to the first piece prepends it to the joined string. */
  lemma JoinPrepend(x: char, parts: seq<string>, glue: string)
    requires |parts| >= 1
    ensures JoinWith([[x] + parts[0]] + parts[1..], glue) == [x] + JoinWith(parts, glue)
  {
    var longer := [[x] + parts[0]] + parts[1..];
    if |parts| > 1 {
      assert longer[1..] == parts[1..];
      assert JoinWith(longer, glue) == [x] + parts[0] + glue + JoinWith(parts[1..], glue);
    }
  }

  /** `replace` changes exactly the first occurrence: the text before it is kept, and so is the text after it. */
  lemma {:induction false} ReplaceFirstAt(s: string, c: char, glue: string, k: nat)
    requires k < |s| && s[k] == c && c !in s[..k]
    ensures ReplaceFirst(s, c, glue) == s[..k] + glue + s[k + 1..]
  {
    if k == 0 {
      assert s[1..] == s[k + 1..];
    } else {
      assert s[0] in s[..k];
      assert s[1..][..k - 1] == s[1..k];
      assert s[1..][..k - 1] == s[..k][1..];
      ReplaceFirstAt(s[1..], c, glue, k - 1);
      assert s[1..][k..] == s[k + 1..];
      assert [s[0]] + s[1..k] == s[..k];
    }
  }

  /** With at most one occurrence, replacing the first is replacing all. */
  lemma {:induction false} ReplaceFirstWhenSingle(s: string, c: char, glue: string)
    requires Count(s, c) <= 1
    ensures ReplaceFirst(s, c, glue) == ReplaceAll(s, c, glue)
  {
    if s != [] {
      if s[0] == c {
        CountZeroIffAbsent(s[1..], c);
        NoOccurrenceUnchanged(s[1..], c, glue);
      } else {
        ReplaceFirstWhenSingle(s[1..], c, glue);
      }
    }
  }

  lemma {:induction false} NoOccurrenceUnchanged(s: string, c: char, glue: string)
    requires c !in s
    ensures ReplaceAll(s, c, glue) == s
  {
    if s != [] {
      assert s[0] in s;
      assert forall x :: x in s[1..] ==> x in s;
      NoOccurrenceUnchanged(s[1..], c, glue);
    }
  }

  /** Replacing only the first occurrence by a `c`-free string removes exactly one `c`. */
  lemma {:induction false} ReplaceFirstCount(s: string, c: char, glue: string)
    requires c !in glue
    requires Count(s, c) >= 1
    ensures Count(ReplaceFirst(s, c, glue), c) == Count(s, c) - 1
  {
    if s[0] == c {
      CountAppend(glue, s[1..], c);
      CountZeroIffAbsent(glue, c);
    } else {
      ReplaceFirstCount(s[1..], c, glue);
      assert ReplaceFirst(s, c, glue) == [s[0]] + ReplaceFirst(s[1..], c, glue);
      CountAppend([s[0]], ReplaceFirst(s[1..], c, glue), c);
    }
  }

  lemma {:induction false} CountAppend(a: string, b: string, c: char)
    ensures Count(a + b, c) == Count(a, c) + Count(b, c)
  {
    if a == [] {
      assert a + b == b;
    } else {
      assert (a + b)[1..] == a[1..] + b;
      CountAppend(a[1..], b, c);
    }
  }

  /** Replacing every `c` by a `c`-free string leaves no `c`. */
  lemma {:induction false} ReplaceAllRemoves(s: string, c: char, glue: string)
    requires c !in glue
    ensures c !in ReplaceAll(s, c, glue)
  {
    if s != [] {
      ReplaceAllRemoves(s[1..], c, glue);
    }
  }
}

/**
 * The handful of Python `str` operations the two scripts rely on:
 * `s.startswith(p)`, `s.endswith(p)`, `sub in s`, `s.split(c)` for a
 * one-character separator, `s.replace(pat, rep)` and `s.replace(c, d)`.
 * Strings are sequences of characters.
 */
module Strings {

  predicate StartsWith(s: string, prefix: string) {
    |prefix| <= |s| && s[..|prefix|] == prefix
  }

  predicate EndsWith(s: string, suffix: string) {
    |suffix| <= |s| && s[|s| - |suffix|..] == suffix
  }

  /** Python's `sub in s`: `sub` occurs somewhere in `s`. */
  predicate Contains(s: string, sub: string)
    decreases |s|
  {
    StartsWith(s, sub) || (s != [] && Contains(s[1..], sub))
  }

  /** A string lacking one of the characters of `sub` cannot contain `sub`. */
  lemma {:induction false} NotContainsMissingChar(s: string, sub: string, i: nat)
    requires i < |sub| && sub[i] !in s
    ensures !Contains(s, sub)
    decreases |s|
  {
    assert !StartsWith(s, sub) by {
      if |sub| <= |s| {
        assert s[..|sub|][i] == s[i];
      }
    }
    if s != [] {
      NotContainsMissingChar(s[1..], sub, i);
    }
  }

  /** Python's `s.split(c)`: the pieces between occurrences of `c`, always at least one. */
  function Split(s: string, c: char): (r: seq<string>)
    ensures |r| >= 1
    decreases |s|
  {
    if s == [] then [[]]
    else
      var rest := Split(s[1..], c);
      if s[0] == c then [[]] + rest
      else [[s[0]] + rest[0]] + rest[1..]
  }

  /** Python's `s.split(c)[-1]`. */
  function LastSegment(s: string, c: char): string {
    var parts := Split(s, c);
    parts[|parts| - 1]
  }

  /** A string without the separator is a single piece. */
  lemma {:induction false} SplitWithoutSeparator(s: string, c: char)
    requires c !in s
    ensures Split(s, c) == [s]
    decreases |s|
  {
    if s != [] {
      SplitWithoutSeparator(s[1..], c);
      assert [s[0]] + s[1..] == s;
    }
  }

  /** Splitting `a + c + b` splits `a` and `b` independently. */
  lemma {:induction false} SplitAtSeparator(a: string, c: char, b: string)
    ensures Split(a + [c] + b, c) == Split(a, c) + Split(b, c)
    decreases |a|
  {
    var s := a + [c] + b;
    if a == [] {
      assert s[1..] == b;
    } else {
      assert s[1..] == a[1..] + [c] + b;
      SplitAtSeparator(a[1..], c, b);
    }
  }

  /** A first piece without the separator comes out whole. */
  lemma SplitLeadingPiece(a: string, c: char, b: string)
    requires c !in a
    ensures Split(a + [c] + b, c) == [a] + Split(b, c)
  {
    SplitAtSeparator(a, c, b);
    SplitWithoutSeparator(a, c);
  }

  /** No piece of a split holds the separator. */
  lemma {:induction false} SplitPiecesWithoutSeparator(s: string, c: char)
    ensures forall i :: 0 <= i < |Split(s, c)| ==> c !in Split(s, c)[i]
    decreases |s|
  {
    if s != [] {
      SplitPiecesWithoutSeparator(s[1..], c);
    }
  }

  /** `s.split(c)[-1]` never holds `c`. */
  lemma LastSegmentWithoutSeparator(s: string, c: char)
    ensures c !in LastSegment(s, c)
  {
    SplitPiecesWithoutSeparator(s, c);
  }

  /** All pieces but the last. */
  function Init(parts: seq<string>): seq<string>
    requires |parts| >= 1
  {
    parts[..|parts| - 1]
  }

  /** The last piece. */
  function Last(parts: seq<string>): string
    requires |parts| >= 1
  {
    parts[|parts| - 1]
  }

  /** Extending the last piece of a sequence that has a piece in front. */
  lemma ExtendLastBehind(x: string, parts: seq<string>, tail: string)
    requires |parts| >= 1
    ensures [x] + (Init(parts) + [Last(parts) + tail]) == Init([x] + parts) + [Last([x] + parts) + tail]
  {
    assert Init([x] + parts) == [x] + Init(parts);
  }

  /** Extending the last piece when the first piece is also the last one to be extended. */
  lemma ExtendFirstPiece(x: char, parts: seq<string>, tail: string)
    requires |parts| >= 1
    ensures var ext := Init(parts) + [Last(parts) + tail];
      [[x] + ext[0]] + ext[1..] == Init([[x] + parts[0]] + parts[1..]) + [Last([[x] + parts[0]] + parts[1..]) + tail]
  {
    var ext := Init(parts) + [Last(parts) + tail];
    var joined := [[x] + parts[0]] + parts[1..];
    if |parts| == 1 {
      assert ext == [parts[0] + tail];
      assert [x] + (parts[0] + tail) == [x] + parts[0] + tail;
    } else {
      assert ext[0] == parts[0];
      assert ext[1..] == parts[1..|parts| - 1] + [Last(parts) + tail];
      assert Init(joined) == [[x] + parts[0]] + parts[1..|parts| - 1];
    }
  }

  /** Appending text without the separator extends the last piece only. */
  lemma {:induction false} SplitAppend(s: string, c: char, tail: string)
    requires c !in tail
    ensures Split(s + tail, c) == Init(Split(s, c)) + [Last(Split(s, c)) + tail]
    decreases |s|
  {
    if s == [] {
      SplitWithoutSeparator(tail, c);
      assert s + tail == tail;
    } else {
      assert (s + tail)[1..] == s[1..] + tail;
      SplitAppend(s[1..], c, tail);
      if s[0] == c {
        ExtendLastBehind([], Split(s[1..], c), tail);
      } else {
        ExtendFirstPiece(s[0], Split(s[1..], c), tail);
      }
    }
  }

  lemma LastSegmentAppend(s: string, c: char, tail: string)
    requires c !in tail
    ensures LastSegment(s + tail, c) == LastSegment(s, c) + tail
  {
    SplitAppend(s, c, tail);
  }

  /** Python's `s.replace(a, b)` for single characters. */
  function ReplaceChar(s: string, a: char, b: char): (r: string)
    ensures |r| == |s|
    ensures forall i :: 0 <= i < |s| ==> r[i] == if s[i] == a then b else s[i]
    decreases |s|
  {
    if s == [] then []
    else [if s[0] == a then b else s[0]] + ReplaceChar(s[1..], a, b)
  }

  /**
   * Replacing one separator by another that did not occur before splits into
   * the same pieces.
   */
  lemma {:induction false} SplitAfterReplaceChar(s: string, a: char, b: char)
    requires b !in s
    ensures Split(ReplaceChar(s, a, b), b) == Split(s, a)
    decreases |s|
  {
    if s != [] {
      var t := ReplaceChar(s, a, b);
      assert t[1..] == ReplaceChar(s[1..], a, b);
      SplitAfterReplaceChar(s[1..], a, b);
    }
  }

  /**
   * Python's `s.replace(pat, rep)`: scanning left to right, every
   * non-overlapping occurrence of `pat` is replaced by `rep`.
   */
  function ReplaceAll(s: string, pat: string, rep: string): string
    requires pat != []
    decreases |s|
  {
    if s == [] then []
    else if StartsWith(s, pat) then rep + ReplaceAll(s[|pat|..], pat, rep)
    else [s[0]] + ReplaceAll(s[1..], pat, rep)
  }

  /** Every character of the result comes from `s` or from `rep`. */
  lemma {:induction false} ReplaceAllChars(s: string, pat: string, rep: string)
    requires pat != []
    ensures forall x :: x in ReplaceAll(s, pat, rep) ==> x in s || x in rep
    decreases |s|
  {
    if s != [] {
      if StartsWith(s, pat) {
        ReplaceAllChars(s[|pat|..], pat, rep);
        assert forall x :: x in s[|pat|..] ==> x in s;
      } else {
        ReplaceAllChars(s[1..], pat, rep);
      }
    }
  }

  /** A string in which `pat` does not occur is left unchanged. */
  lemma {:induction false} ReplaceAllAbsent(s: string, pat: string, rep: string)
    requires pat != [] && !Contains(s, pat)
    ensures ReplaceAll(s, pat, rep) == s
    decreases |s|
  {
    if s != [] {
      ReplaceAllAbsent(s[1..], pat, rep);
    }
  }

  /** A prefix none of whose characters can start `pat` is kept as it is. */
  lemma {:induction false} ReplaceAllAfterFreePrefix(a: string, rest: string, pat: string, rep: string)
    requires pat != [] && forall i :: 0 <= i < |a| ==> a[i] != pat[0]
    ensures ReplaceAll(a + rest, pat, rep) == a + ReplaceAll(rest, pat, rep)
    decreases |a|
  {
    if a != [] {
      var s := a + rest;
      assert !StartsWith(s, pat) by {
        if |pat| <= |s| {
          assert s[..|pat|][0] == a[0];
        }
      }
      assert ReplaceAll(s, pat, rep) == [a[0]] + ReplaceAll(s[1..], pat, rep);
      assert s[1..] == a[1..] + rest;
      ReplaceAllAfterFreePrefix(a[1..], rest, pat, rep);
      var r := ReplaceAll(rest, pat, rep);
      assert [a[0]] + (a[1..] + r) == a + r;
    } else {
      assert a + rest == rest;
    }
  }

  /** A leading occurrence is replaced and the scan resumes after it. */
  lemma ReplaceAllLeading(pat: string, rep: string, rest: string)
    requires pat != []
    ensures ReplaceAll(pat + rest, pat, rep) == rep + ReplaceAll(rest, pat, rep)
  {
    assert (pat + rest)[|pat|..] == rest;
    assert (pat + rest)[..|pat|] == pat;
  }

  /**
   * When the first character of `pat` does not recur inside `pat`, and `s`
   * does not contain `pat`, the only occurrence in `s + pat` is the trailing
   * one, so exactly that one is replaced.
   */
  lemma {:induction false} ReplaceAllTrailing(s: string, pat: string, rep: string)
    requires pat != [] && !Contains(s, pat)
    requires forall k :: 1 <= k < |pat| ==> pat[k] != pat[0]
    ensures ReplaceAll(s + pat, pat, rep) == s + rep
    decreases |s|
  {
    var t := s + pat;
    if s == [] {
      assert t == pat + [];
      ReplaceAllLeading(pat, rep, []);
    } else {
      assert !StartsWith(t, pat) by {
        if |s| >= |pat| {
          assert t[..|pat|] == s[..|pat|];
        } else {
          assert t[|s|] == pat[0];
        }
      }
      assert t[1..] == s[1..] + pat;
      ReplaceAllTrailing(s[1..], pat, rep);
      assert [s[0]] + (s[1..] + rep) == s + rep;
    }
  }
}

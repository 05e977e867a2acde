/**
 * The JavaScript string operations the label rule, the URL helpers and the
 * index page rely on: `split` with a one-character separator (which always
 * yields at least one piece), `join`, `startsWith`, `endsWith` and
 * `replaceAll` with a literal pattern.
 */
module JsStrings {

  /** `s.split(sep)`: the pieces between separators, empty pieces included. */
  function Split(s: string, sep: char): (parts: seq<string>)
    ensures |parts| >= 1
    ensures forall i :: 0 <= i < |parts| ==> sep !in parts[i]
    decreases |s|
  {
    if s == [] then [[]]
    else
      var rest := Split(s[1..], sep);
      if s[0] == sep then [[]] + rest
      else [[s[0]] + rest[0]] + rest[1..]
  }

  /** `parts.join(sep)`; an empty array joins to the empty string. */
  function Join(parts: seq<string>, sep: char): string
  {
    if |parts| == 0 then []
    else if |parts| == 1 then parts[0]
    else parts[0] + [sep] + Join(parts[1..], sep)
  }

  /** `s.split(sep).shift()`: the text before the first separator. */
  function FirstPiece(s: string, sep: char): string
  {
    Split(s, sep)[0]
  }

  /** `s.split(sep).pop()`: the text after the last separator. */
  function LastPiece(s: string, sep: char): string
  {
    var parts := Split(s, sep);
    parts[|parts| - 1]
  }

  predicate StartsWith(s: string, prefix: string)
  {
    |prefix| <= |s| && s[..|prefix|] == prefix
  }

  predicate EndsWith(s: string, suffix: string)
  {
    |suffix| <= |s| && s[|s| - |suffix|..] == suffix
  }

  /** `pat` occurs in `s` at index `i`. */
  predicate OccursAt(s: string, pat: string, i: int)
  {
    0 <= i && i + |pat| <= |s| && s[i..i + |pat|] == pat
  }

  /**
   * `s.replaceAll(pat, rep)` for a literal, non-empty pattern: occurrences are
   * found left to right and do not overlap.
   */
  function ReplaceAll(s: string, pat: string, rep: string): string
    requires pat != []
    decreases |s|
  {
    if |s| < |pat| then s
    else if s[..|pat|] == pat then rep + ReplaceAll(s[|pat|..], pat, rep)
    else [s[0]] + ReplaceAll(s[1..], pat, rep)
  }

  // ---------------------------------------------------------------------------
  // split and join are inverse to each other

  lemma {:induction false} JoinSplit(s: string, sep: char)
    ensures Join(Split(s, sep), sep) == s
    decreases |s|
  {
    if s != [] {
      var rest := Split(s[1..], sep);
      JoinSplit(s[1..], sep);
      if s[0] == sep {
        assert ([[]] + rest)[1..] == rest;
      } else {
        var parts := [[s[0]] + rest[0]] + rest[1..];
        if |rest| > 1 {
          assert parts[1..] == rest[1..];
          assert Join(rest, sep) == rest[0] + [sep] + Join(rest[1..], sep);
        }
        assert s == [s[0]] + s[1..];
      }
    }
  }

  /** A piece without separator splits to itself. */
  lemma {:induction false} SplitPrepend(p: string, t: string, sep: char)
    requires sep !in p
    ensures Split(p + t, sep) == [p + Split(t, sep)[0]] + Split(t, sep)[1..]
    decreases |p|
  {
    if p == [] {
      var r := Split(t, sep);
      assert p + t == t && p + r[0] == r[0];
      assert r == [r[0]] + r[1..];
    } else {
      SplitPrepend(p[1..], t, sep);
      assert (p + t)[1..] == p[1..] + t;
      assert [p[0]] + (p[1..] + Split(t, sep)[0]) == p + Split(t, sep)[0];
    }
  }

  lemma {:induction false} SplitJoin(parts: seq<string>, sep: char)
    requires |parts| >= 1
    requires forall i :: 0 <= i < |parts| ==> sep !in parts[i]
    ensures Split(Join(parts, sep), sep) == parts
    decreases |parts|
  {
    if |parts| == 1 {
      SplitPrepend(parts[0], [], sep);
      assert Split([], sep) == [[]];
      assert parts[0] + [] == parts[0];
      assert parts == [parts[0]];
    } else {
      var tail := Join(parts[1..], sep);
      SplitJoin(parts[1..], sep);
      assert ([sep] + tail)[1..] == tail;
      assert Split([sep] + tail, sep) == [[]] + parts[1..];
      SplitPrepend(parts[0], [sep] + tail, sep);
      assert parts[0] + [sep] + tail == parts[0] + ([sep] + tail);
      assert parts[0] + [] == parts[0];
    }
  }

  /** Joining two or more pieces puts the last one after a final separator. */
  lemma {:induction false} JoinLast(parts: seq<string>, sep: char)
    requires |parts| >= 2
    ensures Join(parts, sep) == Join(parts[..|parts| - 1], sep) + [sep] + parts[|parts| - 1]
    decreases |parts|
  {
    if |parts| > 2 {
      JoinLast(parts[1..], sep);
      assert parts[1..][..|parts| - 2] == parts[..|parts| - 1][1..];
    }
  }

  // ---------------------------------------------------------------------------
  // What shift() and pop() after split() give

  /** The first piece is the longest separator-free prefix. */
  lemma {:induction false} FirstPieceIsPrefix(s: string, sep: char)
    ensures var f := FirstPiece(s, sep);
      && sep !in f
      && StartsWith(s, f)
      && (|f| == |s| || s[|f|] == sep)
    decreases |s|
  {
    if s != [] && s[0] != sep {
      FirstPieceIsPrefix(s[1..], sep);
    }
  }

  /** The last piece is the longest separator-free suffix. */
  lemma LastPieceIsSuffix(s: string, sep: char)
    ensures var l := LastPiece(s, sep);
      && sep !in l
      && EndsWith(s, l)
      && (|l| == |s| || s[|s| - |l| - 1] == sep)
  {
    var parts := Split(s, sep);
    var l := parts[|parts| - 1];
    JoinSplit(s, sep);
    if |parts| >= 2 {
      JoinLast(parts, sep);
      var front := Join(parts[..|parts| - 1], sep);
      assert s == front + [sep] + l;
      assert s[|s| - |l|..] == l;
    } else {
      assert s == l;
    }
  }

  /** Whatever follows the first separator does not affect the first piece. */
  lemma FirstPieceOf(f: string, rest: string, sep: char)
    requires sep !in f
    ensures FirstPiece(f + [sep] + rest, sep) == f
  {
    var s := f + [sep] + rest;
    var g := FirstPiece(s, sep);
    FirstPieceIsPrefix(s, sep);
    assert forall j :: 0 <= j < |g| ==> s[j] != sep by {
      assert forall j :: 0 <= j < |g| ==> s[j] == g[j];
    }
    assert forall j :: 0 <= j < |f| ==> s[j] != sep by {
      assert forall j :: 0 <= j < |f| ==> s[j] == f[j];
    }
    assert s[|f|] == sep;
    assert g == s[..|g|] && f == s[..|f|];
  }

  /** Whatever precedes the last separator does not affect the last piece. */
  lemma LastPieceOf(front: string, l: string, sep: char)
    requires sep !in l
    ensures LastPiece(front + [sep] + l, sep) == l
  {
    var s := front + [sep] + l;
    var k := LastPiece(s, sep);
    LastPieceIsSuffix(s, sep);
    assert forall j :: |s| - |k| <= j < |s| ==> s[j] != sep by {
      assert forall j :: |s| - |k| <= j < |s| ==> s[j] == k[j - (|s| - |k|)];
    }
    assert forall j :: |s| - |l| <= j < |s| ==> s[j] != sep by {
      assert forall j :: |s| - |l| <= j < |s| ==> s[j] == l[j - (|s| - |l|)];
    }
    assert s[|s| - |l| - 1] == sep;
    assert k == s[|s| - |k|..] && l == s[|s| - |l|..];
  }

  // ---------------------------------------------------------------------------
  // replaceAll

  /** Replacing a one-character pattern by "" removes exactly that character. */
  lemma {:induction false} RemoveCharMembership(s: string, d: char, x: char)
    ensures x in ReplaceAll(s, [d], []) <==> x in s && x != d
    decreases |s|
  {
    if |s| >= 1 {
      RemoveCharMembership(s[1..], d, x);
      assert s == [s[0]] + s[1..];
      if s[..1] == [d] {
        assert s[1..] == s[|[d]|..];
      }
    }
  }

  /** Removing a character that does not occur changes nothing. */
  lemma {:induction false} RemoveAbsentChar(s: string, d: char)
    requires d !in s
    ensures ReplaceAll(s, [d], []) == s
    decreases |s|
  {
    if |s| >= 1 {
      RemoveAbsentChar(s[1..], d);
      assert s[..1] == [s[0]];
      assert s == [s[0]] + s[1..];
    }
  }

  /** A text with no occurrence of the pattern is left unchanged. */
  lemma {:induction false} ReplaceAllWithoutOccurrence(s: string, pat: string, rep: string)
    requires pat != []
    requires forall i :: 0 <= i <= |s| ==> !OccursAt(s, pat, i)
    ensures ReplaceAll(s, pat, rep) == s
    decreases |s|
  {
    if |s| >= |pat| {
      assert !OccursAt(s, pat, 0);
      assert s[0..|pat|] == s[..|pat|];
      forall i | 0 <= i <= |s[1..]|
        ensures !OccursAt(s[1..], pat, i)
      {
        assert !OccursAt(s, pat, i + 1);
        if i + |pat| <= |s[1..]| {
          assert s[1..][i..i + |pat|] == s[i + 1..i + 1 + |pat|];
        }
      }
      ReplaceAllWithoutOccurrence(s[1..], pat, rep);
      assert s == [s[0]] + s[1..];
    }
  }

}

/**
 * The part of Go's `strings` package that the action runner and its helpers
 * use: ASCII lower-casing, prefix tests and `strings.Split` with a non-empty
 * separator, together with `Join`, the inverse that gives `Split` its meaning.
 */
module Strings {
  import opened Wrappers

  /** Lower-cases one character; only the ASCII letters 'A'..'Z' change. */
  function LowerChar(c: char): char {
    if 'A' <= c <= 'Z' then (c as int + 32) as char else c
  }

  /** `strings.ToLower`, restricted to ASCII case mapping. */
  function ToLower(s: string): (r: string)
    ensures |r| == |s|
    ensures forall i :: 0 <= i < |s| ==> r[i] == LowerChar(s[i])
  {
    if s == [] then [] else [LowerChar(s[0])] + ToLower(s[1..])
  }

  lemma ToLowerIdempotent(s: string)
    ensures ToLower(ToLower(s)) == ToLower(s)
  {
  }

  /** `strings.HasPrefix`. */
  predicate HasPrefix(s: string, prefix: string) {
    |prefix| <= |s| && s[..|prefix|] == prefix
  }

  /** `s` lower-cases to something starting with `p` exactly when its first |p| characters lower-case to `p`. */
  lemma LowerPrefixByCharacters(s: string, p: string)
    ensures HasPrefix(ToLower(s), p) <==> |s| >= |p| && forall i :: 0 <= i < |p| ==> LowerChar(s[i]) == p[i]
  {
    if |s| >= |p| {
      assert ToLower(s)[..|p|] == ToLower(s[..|p|]);
    }
  }

  lemma HasPrefixOfLonger(s: string, p: string, q: string)
    requires HasPrefix(s, p + q)
    ensures HasPrefix(s, p)
  {
    assert s[..|p|] == (p + q)[..|p|];
  }

  /** `sep` occurs in `s` starting at index `j`. */
  predicate OccursAt(s: string, sep: string, j: int) {
    0 <= j && j + |sep| <= |s| && s[j..j + |sep|] == sep
  }

  /** An occurrence starts with the separator's first character. */
  lemma OccursAtFirst(s: string, sep: string, j: int)
    requires |sep| > 0
    ensures OccursAt(s, sep, j) ==> s[j] == sep[0]
  {
    if OccursAt(s, sep, j) {
      assert s[j..j + |sep|][0] == s[j];
    }
  }

  /** A one-character separator occurs exactly where that character stands. */
  lemma OccursAtChar(s: string, c: char, j: int)
    ensures OccursAt(s, [c], j) <==> 0 <= j < |s| && s[j] == c
  {
    if 0 <= j < |s| {
      assert s[j..j + 1] == [s[j]];
    }
  }

  /** The index of the leftmost occurrence of `sep` in `s` (`strings.Index`). */
  function IndexOf(s: string, sep: string): (r: Option<nat>)
    requires |sep| > 0
    ensures r.Some? ==> OccursAt(s, sep, r.value)
    ensures r.Some? ==> forall j :: 0 <= j < r.value ==> !OccursAt(s, sep, j)
    ensures r.None? ==> forall j :: !OccursAt(s, sep, j)
    decreases |s|
  {
    if |s| < |sep| then None
    else if s[..|sep|] == sep then Some(0)
    else
      var rest := IndexOf(s[1..], sep);
      ShiftOccurrence(s, sep);
      match rest
      case None => None
      case Some(i) => Some(i + 1)
  }

  /** Occurrences in `s` past index 0 are the occurrences in `s[1..]` shifted by one. */
  lemma ShiftOccurrence(s: string, sep: string)
    requires |s| > 0
    ensures forall j :: 1 <= j ==> (OccursAt(s, sep, j) <==> OccursAt(s[1..], sep, j - 1))
  {
    forall j | 1 <= j
      ensures OccursAt(s, sep, j) <==> OccursAt(s[1..], sep, j - 1)
    {
      if j + |sep| <= |s| {
        assert s[1..][j - 1..j - 1 + |sep|] == s[j..j + |sep|];
      }
    }
  }

  /**
   * `strings.Split(s, sep)` for a non-empty separator: the pieces of `s`
   * between the leftmost non-overlapping occurrences of `sep`.
   */
  function Split(s: string, sep: string): (parts: seq<string>)
    requires |sep| > 0
    ensures |parts| >= 1
    decreases |s|
  {
    match IndexOf(s, sep)
    case None => [s]
    case Some(i) => [s[..i]] + Split(s[i + |sep|..], sep)
  }

  /** `strings.Join`, the inverse of `Split`. */
  function Join(parts: seq<string>, sep: string): string {
    if |parts| == 0 then ""
    else if |parts| == 1 then parts[0]
    else parts[0] + sep + Join(parts[1..], sep)
  }

  lemma JoinCons(a: string, rest: seq<string>, sep: string)
    requires |rest| >= 1
    ensures Join([a] + rest, sep) == a + sep + Join(rest, sep)
  {
    assert ([a] + rest)[1..] == rest;
  }

  /** Joining the pieces with the separator gives back the original string. */
  lemma {:induction false} JoinSplit(s: string, sep: string)
    requires |sep| > 0
    ensures Join(Split(s, sep), sep) == s
    decreases |s|
  {
    var r := IndexOf(s, sep);
    if r.Some? {
      var i := r.value;
      var rest := s[i + |sep|..];
      var parts := Split(rest, sep);
      assert Split(s, sep) == [s[..i]] + parts;
      JoinSplit(rest, sep);
      JoinCons(s[..i], parts, sep);
      assert s[i..i + |sep|] == sep;
      calc {
        Join(Split(s, sep), sep);
        s[..i] + sep + Join(parts, sep);
        s[..i] + sep + rest;
        { assert s == s[..i] + s[i..i + |sep|] + rest; }
        s;
      }
    } else {
      assert Split(s, sep) == [s];
    }
  }

  /** No piece produced by `Split` contains the separator. */
  lemma {:induction false} SplitPiecesAvoidSeparator(s: string, sep: string)
    requires |sep| > 0
    ensures forall k, j :: 0 <= k < |Split(s, sep)| ==> !OccursAt(Split(s, sep)[k], sep, j)
    decreases |s|
  {
    match IndexOf(s, sep)
    case None =>
    case Some(i) =>
      var rest := s[i + |sep|..];
      SplitPiecesAvoidSeparator(rest, sep);
      forall j | OccursAt(s[..i], sep, j)
        ensures false
      {
        assert s[..i][j..j + |sep|] == s[j..j + |sep|];
        assert OccursAt(s, sep, j);
      }
      assert Split(s, sep) == [s[..i]] + Split(rest, sep);
  }

  /** Number of occurrences of the character `c` in `s`. */
  function Count(s: string, c: char): nat {
    if s == [] then 0 else (if s[0] == c then 1 else 0) + Count(s[1..], c)
  }

  lemma {:induction false} CountAppend(a: string, b: string, c: char)
    ensures Count(a + b, c) == Count(a, c) + Count(b, c)
  {
    if a == [] {
      assert a + b == b;
    } else {
      assert (a + b)[0] == a[0];
      assert (a + b)[1..] == a[1..] + b;
      CountAppend(a[1..], b, c);
    }
  }

  lemma {:induction false} CountZero(s: string, c: char)
    requires forall j :: 0 <= j < |s| ==> s[j] != c
    ensures Count(s, c) == 0
  {
    if s != [] {
      CountZero(s[1..], c);
    }
  }

  /** Splitting on a one-character separator gives one more piece than there are separators. */
  lemma {:induction false} SplitCount(s: string, c: char)
    ensures |Split(s, [c])| == Count(s, c) + 1
    decreases |s|
  {
    var sep := [c];
    match IndexOf(s, sep)
    case None =>
      forall j | 0 <= j < |s| ensures s[j] != c {
        OccursAtChar(s, c, j);
      }
      CountZero(s, c);
    case Some(i) =>
      var rest := s[i + 1..];
      SplitCount(rest, c);
      forall j | 0 <= j < |s[..i]| ensures s[..i][j] != c {
        OccursAtChar(s, c, j);
      }
      CountZero(s[..i], c);
      assert s[i..i + 1] == sep;
      assert s == s[..i] + [c] + rest;
      CountAppend(s[..i] + [c], rest, c);
      CountAppend(s[..i], [c], c);
  }
}

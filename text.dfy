/** The string operations of Rust's standard library that the core relies on:
    `trim`, `split`, `starts_with`, `trim_start_matches` and `replace`. */
module Text {
  import opened Wrappers

  /** Rust's `char::is_whitespace` (the Unicode White_Space property). */
  predicate IsWhitespace(c: char)
  {
    ('\t' <= c <= '\r') || c == ' ' || c == '\U{85}' || c == '\U{A0}' || c == '\U{1680}'
    || ('\U{2000}' <= c <= '\U{200A}') || c == '\U{2028}' || c == '\U{2029}' || c == '\U{202F}'
    || c == '\U{205F}' || c == '\U{3000}'
  }

  /** Removes the leading whitespace: the result is the suffix of `s` starting at its first
      non-whitespace character. */
  function TrimStart(s: string): (r: string)
    ensures |r| <= |s|
    ensures forall k :: 0 <= k < |s| - |r| ==> IsWhitespace(s[k])
    ensures r == [] || !IsWhitespace(r[0])
  {
    if s != [] && IsWhitespace(s[0]) then TrimStart(s[1..]) else s
  }

  /** Removes the trailing whitespace: the result is the prefix of `s` ending at its last
      non-whitespace character. */
  function TrimEnd(s: string): (r: string)
    ensures |r| <= |s| && r == s[..|r|]
    ensures forall k :: |r| <= k < |s| ==> IsWhitespace(s[k])
    ensures r == [] || !IsWhitespace(r[|r| - 1])
  {
    if s != [] && IsWhitespace(s[|s| - 1]) then TrimEnd(s[..|s| - 1]) else s
  }

  /** Rust's `str::trim`. */
  function Trim(s: string): (r: string)
    ensures r == [] || (!IsWhitespace(r[0]) && !IsWhitespace(r[|r| - 1]))
  {
    TrimEnd(TrimStart(s))
  }

  /** The text before the first `sep`, or all of `s` when it has none. */
  function BeforeFirst(s: string, sep: char): (r: string)
    ensures |r| <= |s| && r == s[..|r|]
    ensures sep !in r
    ensures |r| < |s| ==> s[|r|] == sep
  {
    if s == [] || s[0] == sep then [] else [s[0]] + BeforeFirst(s[1..], sep)
  }

  /** Rust's `str::split` on a character: the pieces between the separators, at least one. */
  function Split(s: string, sep: char): (parts: seq<string>)
    ensures |parts| > 0
    ensures forall k :: 0 <= k < |parts| ==> sep !in parts[k]
    ensures parts[0] == BeforeFirst(s, sep)
    decreases |s|
  {
    var head := BeforeFirst(s, sep);
    if |head| == |s| then [s] else [head] + Split(s[|head| + 1..], sep)
  }

  /** The inverse of `Split`: the pieces with one separator between neighbours. */
  function Join(parts: seq<string>, sep: char): string
    requires |parts| > 0
  {
    if |parts| == 1 then parts[0] else parts[0] + [sep] + Join(parts[1..], sep)
  }

  lemma {:induction false} JoinSplit(s: string, sep: char)
    ensures Join(Split(s, sep), sep) == s
    decreases |s|
  {
    var head := BeforeFirst(s, sep);
    if |head| < |s| {
      var rest := s[|head| + 1..];
      JoinSplit(rest, sep);
      SplitUnfold(s, sep);
      JoinCons(head, Split(rest, sep), sep);
      AroundFirst(s, sep);
    }
  }

  /** Joining a piece in front of non-empty pieces puts one separator after it. */
  lemma JoinCons(x: string, parts: seq<string>, sep: char)
    requires |parts| > 0
    ensures Join([x] + parts, sep) == x + [sep] + Join(parts, sep)
  {
    assert ([x] + parts)[1..] == parts;
  }

  /** A string holding the separator is the text before it, the separator and the rest. */
  lemma AroundFirst(s: string, sep: char)
    requires |BeforeFirst(s, sep)| < |s|
    ensures s == BeforeFirst(s, sep) + [sep] + s[|BeforeFirst(s, sep)| + 1..]
  {
    var head := BeforeFirst(s, sep);
    assert s == s[..|head|] + [s[|head|]] + s[|head| + 1..];
  }

  /** A string without the separator is a single piece. */
  lemma SplitWithoutSep(s: string, sep: char)
    requires sep !in s
    ensures Split(s, sep) == [s]
  {
    assert |BeforeFirst(s, sep)| == |s|;
  }

  /** A string holding the separator has at least two pieces. */
  lemma SplitHasTwoParts(s: string, sep: char)
    requires sep in s
    ensures |Split(s, sep)| >= 2
  {
  }

  /** The text before the first separator of a concatenation: it lies in the first part when
      that part holds a separator, and runs on into the second part otherwise. */
  lemma {:induction false} BeforeFirstAppend(a: string, t: string, sep: char)
    ensures BeforeFirst(a + t, sep) ==
      if |BeforeFirst(a, sep)| < |a| then BeforeFirst(a, sep) else a + BeforeFirst(t, sep)
    decreases |a|
  {
    if a != [] && a[0] != sep {
      assert (a + t)[1..] == a[1..] + t;
      BeforeFirstAppend(a[1..], t, sep);
    } else if a == [] {
      assert a + t == t;
    }
  }

  /** One step of `Split` on a string holding the separator. */
  lemma SplitUnfold(s: string, sep: char)
    requires |BeforeFirst(s, sep)| < |s|
    ensures Split(s, sep) == [BeforeFirst(s, sep)] + Split(s[|BeforeFirst(s, sep)| + 1..], sep)
  {
  }

  /** Splitting around a separator splits the two sides independently. */
  lemma {:induction false} SplitAppend(a: string, b: string, sep: char)
    ensures Split(a + [sep] + b, sep) == Split(a, sep) + Split(b, sep)
    decreases |a|
  {
    var s := a + [sep] + b;
    var headA := BeforeFirst(a, sep);
    if |headA| < |a| {
      var a' := a[|headA| + 1..];
      var rest := s[|headA| + 1..];
      assert Split(s, sep) == [headA] + Split(rest, sep) by {
        BeforeFirstAppend(a, [sep] + b, sep);
        assert s == a + ([sep] + b);
        SplitUnfold(s, sep);
      }
      assert rest == a' + [sep] + b;
      assert Split(a, sep) == [headA] + Split(a', sep) by {
        SplitUnfold(a, sep);
      }
      SplitAppend(a', b, sep);
      ConsAppend(headA, Split(a', sep), Split(b, sep));
    } else {
      SplitAfterWhole(a, b, sep);
    }
  }

  lemma ConsAppend<T>(x: T, u: seq<T>, v: seq<T>)
    ensures [x] + (u + v) == ([x] + u) + v
  {
  }

  lemma AppendTail<T>(a: seq<T>, b: seq<T>)
    requires a != []
    ensures a + b != [] && (a + b)[0] == a[0] && (a + b)[1..] == a[1..] + b
  {
  }

  lemma AppendCons<T>(u: seq<T>, x: T, v: seq<T>)
    ensures u + ([x] + v) == (u + [x]) + v
  {
  }

  /** `SplitAppend` when the first part holds no separator. */
  lemma SplitAfterWhole(a: string, b: string, sep: char)
    requires |BeforeFirst(a, sep)| == |a|
    ensures Split(a + [sep] + b, sep) == Split(a, sep) + Split(b, sep)
  {
    var s := a + [sep] + b;
    BeforeFirstAppend(a, [sep] + b, sep);
    assert s == a + ([sep] + b);
    assert BeforeFirst([sep] + b, sep) == [];
    assert s[|a| + 1..] == b;
    SplitUnfold(s, sep);
  }

  /** A character absent from `s` is absent from every piece of it. */
  lemma {:induction false} SplitKeepsAbsent(s: string, sep: char, c: char)
    requires c !in s
    ensures forall k :: 0 <= k < |Split(s, sep)| ==> c !in Split(s, sep)[k]
    decreases |s|
  {
    var head := BeforeFirst(s, sep);
    if |head| < |s| {
      var rest := s[|head| + 1..];
      assert forall k :: 0 <= k < |rest| ==> rest[k] == s[|head| + 1 + k];
      SplitKeepsAbsent(rest, sep, c);
      assert Split(s, sep) == [head] + Split(rest, sep);
    }
  }

  /** Rust's `str::starts_with` for a string pattern. */
  predicate StartsWith(s: string, p: string)
  {
    |p| <= |s| && s[..|p|] == p
  }

  /** `n` copies of `p` one after another. */
  function Repeat(p: string, n: nat): string
  {
    if n == 0 then [] else p + Repeat(p, n - 1)
  }

  /** Rust's `str::trim_start_matches` for a non-empty string pattern: removes every leading
      repetition of `p`. */
  function TrimStartMatches(s: string, p: string): (r: string)
    requires p != []
    ensures |r| <= |s|
    ensures !StartsWith(r, p)
    decreases |s|
  {
    if StartsWith(s, p) then TrimStartMatches(s[|p|..], p) else s
  }

  /** How many leading copies of `p` `TrimStartMatches` removes. */
  function LeadingCopies(s: string, p: string): nat
    requires p != []
    decreases |s|
  {
    if StartsWith(s, p) then 1 + LeadingCopies(s[|p|..], p) else 0
  }

  /** What `TrimStartMatches` removes is a whole number of copies of the pattern. */
  lemma {:induction false} TrimStartMatchesRemovesCopies(s: string, p: string)
    requires p != []
    ensures s == Repeat(p, LeadingCopies(s, p)) + TrimStartMatches(s, p)
    decreases |s|
  {
    if StartsWith(s, p) {
      var rest := s[|p|..];
      TrimStartMatchesRemovesCopies(rest, p);
      calc {
        s;
        s[..|p|] + rest;
        p + (Repeat(p, LeadingCopies(rest, p)) + TrimStartMatches(rest, p));
        (p + Repeat(p, LeadingCopies(rest, p))) + TrimStartMatches(rest, p);
        Repeat(p, LeadingCopies(s, p)) + TrimStartMatches(s, p);
      }
    } else {
      assert Repeat(p, LeadingCopies(s, p)) == [];
    }
  }

  /** Rust's `str::replace`: every occurrence of `pat`, scanning left to right without overlap,
      replaced by `rep`. */
  function Replace(s: string, pat: string, rep: string): string
    requires pat != []
    decreases |s|
  {
    if |s| < |pat| then s
    else if s[..|pat|] == pat then rep + Replace(s[|pat|..], pat, rep)
    else [s[0]] + Replace(s[1..], pat, rep)
  }

  /** `pat` occurs in `s` at position `i`. */
  predicate OccursAt(s: string, pat: string, i: int)
  {
    0 <= i && i + |pat| <= |s| && s[i..i + |pat|] == pat
  }

  /** Text in which no occurrence starts is copied, and the first occurrence after it is
      replaced. */
  lemma {:induction false} ReplaceStep(a: string, b: string, pat: string, rep: string)
    requires pat != []
    requires forall i :: 0 <= i < |a| ==> !OccursAt(a + pat, pat, i)
    ensures Replace(a + pat + b, pat, rep) == a + rep + Replace(b, pat, rep)
    decreases |a|
  {
    if a == [] {
      assert a + pat + b == pat + b;
      ReplaceAtPattern(b, pat, rep);
    } else {
      assert !OccursAt(a + pat, pat, 0);
      assert (a + pat + b)[..|pat|] == (a + pat)[..|pat|];
      ReplaceSkips(a + pat + b, pat, rep);
      assert (a + pat + b)[1..] == a[1..] + pat + b;
      forall i | 0 <= i < |a[1..]| ensures !OccursAt(a[1..] + pat, pat, i) {
        assert !OccursAt(a + pat, pat, i + 1);
        assert (a + pat)[i + 1..i + 1 + |pat|] == (a[1..] + pat)[i..i + |pat|];
      }
      ReplaceStep(a[1..], b, pat, rep);
      assert [a[0]] + (a[1..] + rep + Replace(b, pat, rep)) == a + rep + Replace(b, pat, rep) by {
        assert a == [a[0]] + a[1..];
      }
    }
  }

  /** An occurrence at the front is replaced. */
  lemma ReplaceAtPattern(b: string, pat: string, rep: string)
    requires pat != []
    ensures Replace(pat + b, pat, rep) == rep + Replace(b, pat, rep)
  {
    assert (pat + b)[..|pat|] == pat && (pat + b)[|pat|..] == b;
  }

  /** A first character at which no occurrence starts is copied. */
  lemma ReplaceSkips(s: string, pat: string, rep: string)
    requires pat != [] && |s| >= |pat| && s[..|pat|] != pat
    ensures Replace(s, pat, rep) == [s[0]] + Replace(s[1..], pat, rep)
  {
  }

  /** A string without the pattern is left as it is. */
  lemma {:induction false} ReplaceWithoutOccurrence(s: string, pat: string, rep: string)
    requires pat != []
    requires forall i :: !OccursAt(s, pat, i)
    ensures Replace(s, pat, rep) == s
    decreases |s|
  {
    if |s| >= |pat| {
      assert !OccursAt(s, pat, 0);
      forall i ensures !OccursAt(s[1..], pat, i) {
        assert !OccursAt(s, pat, i + 1);
      }
      ReplaceWithoutOccurrence(s[1..], pat, rep);
    }
  }

  /** No character of `t` occurs in `pat`. */
  predicate Disjoint(t: string, pat: string)
  {
    forall k :: 0 <= k < |t| ==> t[k] !in pat
  }

  /** Up to the first character of `rep` in the result, `Replace` has copied its input. */
  lemma {:induction false} ReplaceCopiesPrefix(s: string, pat: string, rep: string, m: nat)
    requires pat != [] && rep != []
    requires m <= |Replace(s, pat, rep)|
    requires forall k :: 0 <= k < m ==> Replace(s, pat, rep)[k] !in rep
    ensures m <= |s| && Replace(s, pat, rep)[..m] == s[..m]
    decreases |s|
  {
    var out := Replace(s, pat, rep);
    assert |s| >= |pat| && s[..|pat|] == pat ==> out[0] == rep[0] && rep[0] in rep;
    if m > 0 && |s| >= |pat| && s[..|pat|] != pat {
      var rest := Replace(s[1..], pat, rep);
      assert out == [s[0]] + rest;
      forall k | 0 <= k < m - 1 ensures rest[k] !in rep {
        assert rest[k] == out[k + 1];
      }
      ReplaceCopiesPrefix(s[1..], pat, rep, m - 1);
      assert out[..m] == [s[0]] + rest[..m - 1];
    }
  }

  /** When the replacement shares no character with the pattern and is not empty, no
      occurrence of the pattern is left. */
  lemma {:induction false} ReplaceRemovesAll(s: string, pat: string, rep: string)
    requires pat != [] && rep != []
    requires Disjoint(rep, pat)
    ensures forall i :: !OccursAt(Replace(s, pat, rep), pat, i)
    decreases |s|
  {
    var out := Replace(s, pat, rep);
    if |s| >= |pat| {
      if s[..|pat|] == pat {
        var rest := Replace(s[|pat|..], pat, rep);
        ReplaceRemovesAll(s[|pat|..], pat, rep);
        assert out == rep + rest;
        forall i ensures !OccursAt(out, pat, i) {
          if 0 <= i < |rep| && i + |pat| <= |out| {
            assert out[i..i + |pat|][0] == rep[i] && pat[0] in pat;
          } else if |rep| <= i && i + |pat| <= |out| {
            assert out[i..i + |pat|] == rest[i - |rep|..i - |rep| + |pat|];
            assert !OccursAt(rest, pat, i - |rep|);
          }
        }
      } else {
        var rest := Replace(s[1..], pat, rep);
        ReplaceRemovesAll(s[1..], pat, rep);
        assert out == [s[0]] + rest;
        forall i ensures !OccursAt(out, pat, i) {
          if i == 0 && |pat| <= |out| {
            if exists k :: 0 <= k < |pat| && out[k] in rep {
              var k :| 0 <= k < |pat| && out[k] in rep;
              assert out[..|pat|][k] == out[k] && pat[k] in pat;
            } else {
              ReplaceCopiesPrefix(s, pat, rep, |pat|);
            }
          } else if 1 <= i && i + |pat| <= |out| {
            assert out[i..i + |pat|] == rest[i - 1..i - 1 + |pat|];
            assert !OccursAt(rest, pat, i - 1);
          }
        }
      }
    }
  }
}

/** The string operations the frontend and the backend rely on:
    prefix and substring tests, whitespace trimming, and splitting and
    joining on a single separator character, with the laws that relate
    them. */
module Strings {

  predicate StartsWith(s: string, prefix: string) {
    |prefix| <= |s| && s[..|prefix|] == prefix
  }

  /** `sub` occurs somewhere in `s` (Python's `in`, JavaScript's `includes`). */
  predicate Contains(s: string, sub: string)
    decreases |s|
  {
    StartsWith(s, sub) || (s != [] && Contains(s[1..], sub))
  }

  lemma {:induction false} ContainsAt(s: string, sub: string, i: nat)
    requires i + |sub| <= |s| && s[i..i + |sub|] == sub
    ensures Contains(s, sub)
    decreases i
  {
    if i > 0 {
      assert s[1..][i - 1..i - 1 + |sub|] == s[i..i + |sub|];
      ContainsAt(s[1..], sub, i - 1);
    }
  }

  /** The characters JavaScript's `trim` removes: the white-space
      characters (tab, vertical tab, form feed, space, no-break space, the
      byte-order mark and the other Unicode space separators) and the line
      terminators (line feed, carriage return, line and paragraph
      separators). */
  predicate IsSpace(c: char) {
    c == '\t' || c == '\U{B}' || c == '\U{C}' || c == ' ' || c == '\U{A0}' || c == '\U{FEFF}'
    || c == '\U{1680}' || ('\U{2000}' <= c <= '\U{200A}') || c == '\U{202F}' || c == '\U{205F}'
    || c == '\U{3000}' || c == '\n' || c == '\r' || c == '\U{2028}' || c == '\U{2029}'
  }

  /** The number of leading characters of `s` that satisfy `space`. */
  function LeadingCount(s: string, space: char -> bool): (n: nat)
    ensures n <= |s| && (n == |s| || !space(s[n]))
    ensures forall i :: 0 <= i < n ==> space(s[i])
  {
    if s == [] || !space(s[0]) then 0 else 1 + LeadingCount(s[1..], space)
  }

  /** The number of trailing characters of `s` that satisfy `space`. */
  function TrailingCount(s: string, space: char -> bool): (n: nat)
    ensures n <= |s| && (n == |s| || !space(s[|s| - n - 1]))
    ensures forall i :: |s| - n <= i < |s| ==> space(s[i])
  {
    if s == [] || !space(s[|s| - 1]) then 0 else 1 + TrailingCount(s[..|s| - 1], space)
  }

  /** Drops the leading characters that satisfy `space`. */
  function TrimStartBy(s: string, space: char -> bool): (r: string)
    ensures |r| <= |s| && r == s[|s| - |r|..]
    ensures r == [] || !space(r[0])
    ensures forall i :: 0 <= i < |s| - |r| ==> space(s[i])
  {
    s[LeadingCount(s, space)..]
  }

  /** Drops the trailing characters that satisfy `space`. */
  function TrimEndBy(s: string, space: char -> bool): (r: string)
    ensures |r| <= |s| && r == s[..|r|]
    ensures r == [] || !space(r[|r| - 1])
    ensures forall i :: |r| <= i < |s| ==> space(s[i])
  {
    s[..|s| - TrailingCount(s, space)]
  }

  /** Drops leading and trailing characters that satisfy `space`. */
  function TrimBy(s: string, space: char -> bool): string
  {
    TrimEndBy(TrimStartBy(s, space), space)
  }

  /** JavaScript's `trim`. */
  function Trim(s: string): string
  {
    TrimBy(s, IsSpace)
  }

  /** Trimming keeps the contiguous run of `s` that starts after its
      leading whitespace, neither begins nor ends with whitespace, and drops
      only whitespace after it. */
  lemma TrimShape(s: string, space: char -> bool)
    ensures var lo := |s| - |TrimStartBy(s, space)|; var t := TrimBy(s, space);
      lo + |t| <= |s| && t == s[lo..lo + |t|]
      && (forall i :: 0 <= i < lo ==> space(s[i]))
      && (forall i :: lo + |t| <= i < |s| ==> space(s[i]))
    ensures var t := TrimBy(s, space); t == [] || (!space(t[0]) && !space(t[|t| - 1]))
  {
    var u := TrimStartBy(s, space);
    TrimmedSlice(s, u, TrimEndBy(u, space), space);
  }

  /** The trimming argument on its own: if `u` is what remains of `s`
      after dropping a run of whitespace in front, and `t` what remains of
      `u` after dropping a run at the back, then `t` is a slice of `s` with
      only whitespace around it. */
  lemma TrimmedSlice(s: string, u: string, t: string, space: char -> bool)
    requires |u| <= |s| && u == s[|s| - |u|..]
    requires u == [] || !space(u[0])
    requires forall i :: 0 <= i < |s| - |u| ==> space(s[i])
    requires |t| <= |u| && t == u[..|t|]
    requires t == [] || !space(t[|t| - 1])
    requires forall i :: |t| <= i < |u| ==> space(u[i])
    ensures var lo := |s| - |u|;
      lo + |t| <= |s| && t == s[lo..lo + |t|]
      && (forall i :: 0 <= i < lo ==> space(s[i]))
      && (forall i :: lo + |t| <= i < |s| ==> space(s[i]))
    ensures t == [] || (!space(t[0]) && !space(t[|t| - 1]))
  {
    var lo := |s| - |u|;
    forall i | lo + |t| <= i < |s| ensures space(s[i]) {
      assert s[i] == u[i - lo];
    }
    if t != [] {
      assert t[0] == u[0];
    }
  }

  /** A string that neither begins nor ends with whitespace is its own trim,
      so trimming twice is trimming once. */
  lemma TrimIdempotent(s: string, space: char -> bool)
    ensures TrimBy(TrimBy(s, space), space) == TrimBy(s, space)
  {
    TrimShape(s, space);
    var t := TrimBy(s, space);
    if t != [] {
      assert TrimStartBy(t, space) == t;
    }
  }

  /** Trimming leaves nothing exactly when every character is whitespace. */
  lemma TrimEmpty(s: string, space: char -> bool)
    ensures TrimBy(s, space) == [] <==> forall i :: 0 <= i < |s| ==> space(s[i])
  {
    var r := TrimStartBy(s, space);
    assert forall i :: 0 <= i < |r| ==> r[i] == s[|s| - |r| + i];
  }

  /** The pieces of `s` between occurrences of `sep` (JavaScript's
      `split(sep)` with a one-character separator): there is always at
      least one piece, and no piece contains the separator. */
  function Split(s: string, sep: char): (parts: seq<string>)
    ensures |parts| >= 1
  {
    if s == [] then [[]]
    else if s[0] == sep then [[]] + Split(s[1..], sep)
    else
      var rest := Split(s[1..], sep);
      [[s[0]] + rest[0]] + rest[1..]
  }

  /** The pieces concatenated with `sep` between neighbours (JavaScript's
      `join(sep)`). */
  function Join(parts: seq<string>, sep: char): string
  {
    if parts == [] then []
    else if |parts| == 1 then parts[0]
    else parts[0] + [sep] + Join(parts[1..], sep)
  }

  /** Joining the pieces of a split gives back the original string. */
  lemma {:induction false} JoinSplit(s: string, sep: char)
    ensures Join(Split(s, sep), sep) == s
  {
    if s == [] {
    } else if s[0] == sep {
      JoinSplit(s[1..], sep);
      assert s == [sep] + s[1..];
    } else {
      var rest := Split(s[1..], sep);
      JoinSplit(s[1..], sep);
      if |rest| == 1 {
        assert s == [s[0]] + s[1..];
      } else {
        assert Join(rest, sep) == rest[0] + [sep] + Join(rest[1..], sep);
        var parts := [[s[0]] + rest[0]] + rest[1..];
        assert parts[1..] == rest[1..];
        assert s == [s[0]] + s[1..];
      }
    }
  }

  lemma {:induction false} SplitPrefix(p: string, sep: char, rest: string)
    requires sep !in p
    ensures Split(p + [sep] + rest, sep) == [p] + Split(rest, sep)
  {
    if p == [] {
      assert p + [sep] + rest == [sep] + rest;
    } else {
      assert (p + [sep] + rest)[1..] == p[1..] + [sep] + rest;
      SplitPrefix(p[1..], sep, rest);
      assert [p[0]] + p[1..] == p;
    }
  }

  lemma {:induction false} SplitFree(p: string, sep: char)
    requires sep !in p
    ensures Split(p, sep) == [p]
  {
    if p != [] {
      SplitFree(p[1..], sep);
      assert [p[0]] + p[1..] == p;
    }
  }

  /** Splitting a join of separator-free pieces gives back the pieces. */
  lemma {:induction false} SplitJoin(parts: seq<string>, sep: char)
    requires |parts| >= 1
    requires forall k :: 0 <= k < |parts| ==> sep !in parts[k]
    ensures Split(Join(parts, sep), sep) == parts
  {
    if |parts| == 1 {
      SplitFree(parts[0], sep);
    } else {
      SplitJoin(parts[1..], sep);
      SplitPrefix(parts[0], sep, Join(parts[1..], sep));
      assert [parts[0]] + parts[1..] == parts;
    }
  }

  /** The position of the first occurrence of `c` in `s`. */
  function IndexOf(s: string, c: char): (i: nat)
    requires c in s
    ensures i < |s| && s[i] == c && c !in s[..i]
  {
    if s[0] == c then 0
    else
      assert c in s[1..] by { var k :| 0 <= k < |s| && s[k] == c; assert s[1..][k - 1] == c; }
      var j := IndexOf(s[1..], c);
      assert s[..j + 1] == [s[0]] + s[1..][..j];
      1 + j
  }

  /** The first piece of a split is everything before the first separator,
      and the remaining pieces joined again are everything after it,
      further separators included. */
  lemma {:induction false} SplitAtFirst(s: string, sep: char)
    requires sep in s
    ensures Split(s, sep)[0] == s[..IndexOf(s, sep)]
    ensures Join(Split(s, sep)[1..], sep) == s[IndexOf(s, sep) + 1..]
  {
    var i := IndexOf(s, sep);
    var before, after := s[..i], s[i + 1..];
    assert s == before + [sep] + after;
    SplitPrefix(before, sep, after);
    JoinSplit(after, sep);
  }
}

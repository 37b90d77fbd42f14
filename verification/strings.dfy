/**
 * The parts of Go's `strings` package the parsers call. Strings are
 * sequences of characters (decoded runes); every separator the integrations
 * split on is a single character.
 */
module GoStrings {

  /** `strings.Split(s, string(sep))`. */
  function Split(s: string, sep: char): (parts: seq<string>)
    ensures |parts| >= 1
    ensures forall i | 0 <= i < |parts| :: sep !in parts[i]
    ensures Join(parts, sep) == s
    ensures |parts| == 1 + multiset(s)[sep]
  {
    if s == [] then [""]
    else
      var rest := Split(s[1..], sep);
      var parts := if s[0] == sep then [""] + rest else [[s[0]] + rest[0]] + rest[1..];
      SplitFree(s, sep, rest, parts);
      SplitJoin1(s, sep, rest, parts);
      SplitCount(s, sep, rest, parts);
      parts
  }

  /** The parts of a non-empty string, from the parts of its tail. */
  predicate SplitsFrom(s: string, sep: char, rest: seq<string>, parts: seq<string>)
    requires |s| > 0 && |rest| >= 1
  {
    parts == if s[0] == sep then [""] + rest else [[s[0]] + rest[0]] + rest[1..]
  }

  lemma SplitFree(s: string, sep: char, rest: seq<string>, parts: seq<string>)
    requires |s| > 0 && |rest| >= 1 && SplitsFrom(s, sep, rest, parts)
    requires forall i | 0 <= i < |rest| :: sep !in rest[i]
    ensures forall i | 0 <= i < |parts| :: sep !in parts[i]
  {
    if s[0] != sep {
      forall i | 0 <= i < |parts| ensures sep !in parts[i] {
        if i > 0 {
          assert parts[i] == rest[i];
        }
      }
    } else {
      forall i | 0 <= i < |parts| ensures sep !in parts[i] {
        if i > 0 {
          assert parts[i] == rest[i - 1];
        }
      }
    }
  }

  lemma SplitJoin1(s: string, sep: char, rest: seq<string>, parts: seq<string>)
    requires |s| > 0 && |rest| >= 1 && SplitsFrom(s, sep, rest, parts)
    requires Join(rest, sep) == s[1..]
    ensures Join(parts, sep) == s
  {
    assert s == [s[0]] + s[1..];
    if s[0] == sep {
      assert parts[1..] == rest;
    } else if |rest| > 1 {
      assert parts[1..] == rest[1..];
      assert Join(rest, sep) == rest[0] + [sep] + Join(rest[1..], sep);
    }
  }

  lemma SplitCount(s: string, sep: char, rest: seq<string>, parts: seq<string>)
    requires |s| > 0 && |rest| >= 1 && SplitsFrom(s, sep, rest, parts)
    requires |rest| == 1 + multiset(s[1..])[sep]
    ensures |parts| == 1 + multiset(s)[sep]
  {
    assert s == [s[0]] + s[1..];
    assert multiset(s) == multiset([s[0]]) + multiset(s[1..]);
  }

  /** `strings.Join(parts, string(sep))`, the inverse of `Split`. */
  function Join(parts: seq<string>, sep: char): string
    requires |parts| >= 1
  {
    if |parts| == 1 then parts[0] else parts[0] + [sep] + Join(parts[1..], sep)
  }

  /** Splitting what `Join` produced gives back the parts, when no part holds the separator. */
  lemma {:induction false} SplitJoin(parts: seq<string>, sep: char)
    requires |parts| >= 1
    requires forall i | 0 <= i < |parts| :: sep !in parts[i]
    ensures Split(Join(parts, sep), sep) == parts
  {
    var s := Join(parts, sep);
    var ps := Split(s, sep);
    UniqueSplit(ps, parts, sep);
  }

  /** The separator occurs in a join exactly when there are two parts or more, first right after the first part. */
  lemma JoinFirstSeparator(a: seq<string>, sep: char)
    requires |a| >= 1
    requires forall i | 0 <= i < |a| :: sep !in a[i]
    ensures sep in Join(a, sep) <==> |a| > 1
    ensures |a| > 1 ==> IndexOf(Join(a, sep), sep) == |a[0]|
  {
    if |a| > 1 {
      var j := Join(a, sep);
      assert j[|a[0]|] == sep;
      assert j[..|a[0]|] == a[0];
    }
  }

  /** Two separator-free decompositions of the same string are equal. */
  lemma {:induction false} UniqueSplit(a: seq<string>, b: seq<string>, sep: char)
    requires |a| >= 1 && |b| >= 1
    requires forall i | 0 <= i < |a| :: sep !in a[i]
    requires forall i | 0 <= i < |b| :: sep !in b[i]
    requires Join(a, sep) == Join(b, sep)
    ensures a == b
    decreases |a| + |b|
  {
    JoinFirstSeparator(a, sep);
    JoinFirstSeparator(b, sep);
    if |a| > 1 {
      var j := Join(a, sep);
      var k := |a[0]|;
      assert a[0] == j[..k] == b[0];
      assert Join(a[1..], sep) == j[k + 1..] == Join(b[1..], sep);
      UniqueSplit(a[1..], b[1..], sep);
      assert a == [a[0]] + a[1..] && b == [b[0]] + b[1..];
    }
  }

  /** Go's `unicode.IsSpace`: the Latin-1 spaces and the Unicode White_Space characters. */
  predicate IsSpace(c: char) {
    c == '\t' || c == '\n' || c == '\U{000B}' || c == '\U{000C}' || c == '\r' || c == ' '
    || c == '\U{0085}' || c == '\U{00A0}' || c == '\U{1680}' || ('\U{2000}' <= c <= '\U{200A}')
    || c == '\U{2028}' || c == '\U{2029}' || c == '\U{202F}' || c == '\U{205F}' || c == '\U{3000}'
  }

  function TrimLeft(s: string): (t: string)
    ensures |t| <= |s| && t == s[|s| - |t|..]
    ensures t != [] ==> !IsSpace(t[0])
    ensures forall i | 0 <= i < |s| - |t| :: IsSpace(s[i])
  {
    if s != [] && IsSpace(s[0]) then TrimLeft(s[1..]) else s
  }

  function TrimRight(s: string): (t: string)
    ensures |t| <= |s| && t == s[..|t|]
    ensures t != [] ==> !IsSpace(t[|t| - 1])
    ensures forall i | |t| <= i < |s| :: IsSpace(s[i])
  {
    if s != [] && IsSpace(s[|s| - 1]) then TrimRight(s[..|s| - 1]) else s
  }

  /** `strings.TrimSpace`: the slice of `s` left after removing leading and trailing white space. */
  function TrimSpace(s: string): (t: string)
    ensures |t| <= |s|
    ensures exists k :: TrimmedAt(s, t, k)
    ensures t != [] ==> !IsSpace(t[0]) && !IsSpace(t[|t| - 1])
  {
    TrimmedOccurs(s);
    TrimRight(TrimLeft(s))
  }

  /** `t` is `s` from index `k` on, with only white space around it. */
  predicate TrimmedAt(s: string, t: string, k: int) {
    0 <= k <= |s| - |t| && t == s[k..k + |t|]
    && (forall i | 0 <= i < k :: IsSpace(s[i]))
    && (forall i | k + |t| <= i < |s| :: IsSpace(s[i]))
  }

  /** What is left after trimming both ends is a slice of the original, with only white space cut off. */
  lemma TrimmedOccurs(s: string)
    ensures TrimmedAt(s, TrimRight(TrimLeft(s)), |s| - |TrimLeft(s)|)
  {
    var l := TrimLeft(s);
    var r := TrimRight(l);
    var k := |s| - |l|;
    assert l == s[k..] && r == l[..|r|];
    forall i | k + |r| <= i < |s| ensures IsSpace(s[i]) {
      assert |r| <= i - k < |l| && s[i] == l[i - k];
    }
    TrimmedAtIntro(s, r, k);
  }

  lemma TrimmedAtIntro(s: string, t: string, k: int)
    requires 0 <= k <= |s| - |t| && t == s[k..k + |t|]
    requires forall i | 0 <= i < k :: IsSpace(s[i])
    requires forall i | k + |t| <= i < |s| :: IsSpace(s[i])
    ensures TrimmedAt(s, t, k)
  {
  }

  /** `strings.HasPrefix`. */
  predicate HasPrefix(s: string, prefix: string) {
    |prefix| <= |s| && s[..|prefix|] == prefix
  }

  /** `sub` occurs in `s` starting at index `i`. */
  predicate OccursAt(s: string, sub: string, i: int) {
    0 <= i <= |s| - |sub| && s[i..i + |sub|] == sub
  }

  /** `strings.Contains`. */
  predicate Contains(s: string, sub: string) {
    exists i | 0 <= i <= |s| - |sub| :: OccursAt(s, sub, i)
  }

  /** A search from the front that agrees with `Contains`. */
  function ContainsFrom(s: string, sub: string): (b: bool)
    ensures b <==> Contains(s, sub)
    decreases |s|
  {
    if HasPrefix(s, sub) then
      assert OccursAt(s, sub, 0);
      true
    else if |s| <= |sub| then
      assert !Contains(s, sub) by {
        forall i ensures !OccursAt(s, sub, i) {
        }
      }
      false
    else
      var b := ContainsFrom(s[1..], sub);
      ContainsStep(s, sub);
      b
  }

  /** Past a non-matching first position, `s` contains `sub` exactly when its tail does. */
  lemma ContainsStep(s: string, sub: string)
    requires |s| > |sub| && !HasPrefix(s, sub)
    ensures Contains(s, sub) <==> Contains(s[1..], sub)
  {
    forall i | OccursAt(s[1..], sub, i) ensures OccursAt(s, sub, i + 1) {
      assert s[i + 1..i + 1 + |sub|] == s[1..][i..i + |sub|];
    }
    forall i | OccursAt(s, sub, i) ensures OccursAt(s[1..], sub, i - 1) {
      assert i != 0;
      assert s[1..][i - 1..i - 1 + |sub|] == s[i..i + |sub|];
    }
  }

  /**
   * `strings.Count`: non-overlapping occurrences of `sub`, scanning from the
   * front; an empty `sub` counts one more than the number of characters.
   */
  function Count(s: string, sub: string): (n: nat)
    ensures sub == [] ==> n == |s| + 1
    decreases |s|
  {
    if sub == [] then |s| + 1
    else if HasPrefix(s, sub) then 1 + Count(s[|sub|..], sub)
    else if s == [] then 0
    else Count(s[1..], sub)
  }

  /** Counting a one-character string counts that character. */
  lemma {:induction false} CountChar(s: string, c: char)
    ensures Count(s, [c]) == multiset(s)[c]
  {
    if s != [] {
      CountChar(s[1..], c);
      assert s == [s[0]] + s[1..];
    }
  }

  /** `strings.Replace(s, pattern, "", -1)`: every non-overlapping occurrence of `pattern` removed, left to right. */
  function RemoveAll(s: string, pattern: string): (r: string)
    requires pattern != []
    ensures |r| <= |s|
    decreases |s|
  {
    if HasPrefix(s, pattern) then RemoveAll(s[|pattern|..], pattern)
    else if s == [] then []
    else [s[0]] + RemoveAll(s[1..], pattern)
  }

  /** A string that does not contain `pattern` is left as it is. */
  lemma {:induction false} RemoveAllAbsent(s: string, pattern: string)
    requires pattern != [] && !Contains(s, pattern)
    ensures RemoveAll(s, pattern) == s
    decreases |s|
  {
    assert !ContainsFrom(s, pattern);
    if s != [] {
      RemoveAllAbsent(s[1..], pattern);
    }
  }

  /** `pieces` with `pattern` between each two. */
  function JoinWith(pieces: seq<string>, pattern: string): string
    requires |pieces| >= 1
  {
    if |pieces| == 1 then pieces[0] else pieces[0] + pattern + JoinWith(pieces[1..], pattern)
  }

  /** The pieces one after the other. */
  function Concat(pieces: seq<string>): string {
    if pieces == [] then [] else pieces[0] + Concat(pieces[1..])
  }

  /**
   * The cuts a left-to-right scan makes: the pattern starts in no piece
   * before the cut that follows it, and the last piece does not hold it.
   */
  predicate LeftmostPieces(pieces: seq<string>, pattern: string)
    requires pattern != []
  {
    && |pieces| >= 1
    && (forall i | 0 <= i < |pieces| - 1 :: !Contains(pieces[i] + pattern[..|pattern| - 1], pattern))
    && !Contains(pieces[|pieces| - 1], pattern)
  }

  /**
   * What `RemoveAll` means: text cut into pieces at the occurrences of the
   * pattern a left-to-right scan finds loses exactly those occurrences.
   */
  lemma {:induction false} RemoveAllPieces(pieces: seq<string>, pattern: string)
    requires pattern != [] && LeftmostPieces(pieces, pattern)
    ensures RemoveAll(JoinWith(pieces, pattern), pattern) == Concat(pieces)
    decreases |pieces|
  {
    if |pieces| == 1 {
      RemoveAllAbsent(pieces[0], pattern);
      assert Concat(pieces) == pieces[0] + Concat([]);
    } else {
      var rest := pieces[1..];
      assert LeftmostPieces(rest, pattern) by {
        assert forall i | 0 <= i < |rest| - 1 :: rest[i] == pieces[i + 1];
      }
      RemoveAllPieces(rest, pattern);
      RemoveAllSkip(pieces[0], JoinWith(rest, pattern), pattern);
    }
  }

  /** A scan over `x` that finds no occurrence starting in it removes the pattern right after it. */
  lemma {:induction false} RemoveAllSkip(x: string, y: string, pattern: string)
    requires pattern != [] && !Contains(x + pattern[..|pattern| - 1], pattern)
    ensures RemoveAll(x + pattern + y, pattern) == x + RemoveAll(y, pattern)
    decreases |x|
  {
    if x == [] {
      RemoveAllAtStart(pattern, y);
      assert x + pattern + y == pattern + y;
    } else {
      var s := x + pattern + y;
      NoOccurrenceAtStart(x, y, pattern);
      NoOccurrenceInTail(x, pattern);
      RemoveAllSkip(x[1..], y, pattern);
      assert s[1..] == x[1..] + pattern + y;
      RemoveAllStep(s, pattern);
      var tail := RemoveAll(y, pattern);
      assert [x[0]] + (x[1..] + tail) == ([x[0]] + x[1..]) + tail;
      assert x == [x[0]] + x[1..];
    }
  }

  /** An occurrence at the very start is removed. */
  lemma RemoveAllAtStart(pattern: string, y: string)
    requires pattern != []
    ensures RemoveAll(pattern + y, pattern) == RemoveAll(y, pattern)
  {
    var s := pattern + y;
    assert s[..|pattern|] == pattern && s[|pattern|..] == y;
  }

  /** A character that starts no occurrence is kept. */
  lemma RemoveAllStep(s: string, pattern: string)
    requires pattern != [] && s != [] && !HasPrefix(s, pattern)
    ensures RemoveAll(s, pattern) == [s[0]] + RemoveAll(s[1..], pattern)
  {
  }

  /** The pattern does not start `x + pattern + y` when it starts nowhere in `x` before the cut. */
  lemma NoOccurrenceAtStart(x: string, y: string, pattern: string)
    requires pattern != [] && x != [] && !Contains(x + pattern[..|pattern| - 1], pattern)
    ensures !HasPrefix(x + pattern + y, pattern)
  {
    var s := x + pattern + y;
    var w := x + pattern[..|pattern| - 1];
    assert s[..|pattern|] == w[..|pattern|];
    if s[..|pattern|] == pattern {
      assert OccursAt(w, pattern, 0);
    }
  }

  /** Dropping the first character of `x` keeps the pattern from starting before the cut. */
  lemma NoOccurrenceInTail(x: string, pattern: string)
    requires pattern != [] && x != [] && !Contains(x + pattern[..|pattern| - 1], pattern)
    ensures !Contains(x[1..] + pattern[..|pattern| - 1], pattern)
  {
    var w := x + pattern[..|pattern| - 1];
    var v := x[1..] + pattern[..|pattern| - 1];
    forall i | 0 <= i <= |v| - |pattern| ensures !OccursAt(v, pattern, i) {
      assert v[i..i + |pattern|] == w[i + 1..i + 1 + |pattern|];
      assert !OccursAt(w, pattern, i + 1);
    }
  }

  /** A leading occurrence is removed, and the rest, free of the pattern, is kept. */
  lemma RemoveAllPrefix(pattern: string, rest: string)
    requires pattern != [] && !Contains(rest, pattern)
    ensures RemoveAll(pattern + rest, pattern) == rest
  {
    var pieces := ["", rest];
    assert !Contains("" + pattern[..|pattern| - 1], pattern);
    assert pieces[1..] == [rest];
    RemoveAllPieces(pieces, pattern);
    assert Concat(pieces) == "" + Concat([rest]);
    assert Concat([rest]) == rest + Concat([]);
  }

  /** The index of the first occurrence of `c` in `s`. */
  function IndexOf(s: string, c: char): (i: nat)
    requires c in s
    ensures i < |s| && s[i] == c && c !in s[..i]
  {
    if s[0] == c then 0
    else
      var i := 1 + IndexOf(s[1..], c);
      assert s[..i] == [s[0]] + s[1..][..i - 1];
      i
  }

  /** `IndexOf` finds the first occurrence: any occurrence with none before it is the one it returns. */
  lemma {:induction false} IndexOfFirst(s: string, c: char, i: nat)
    requires i < |s| && s[i] == c && c !in s[..i]
    ensures IndexOf(s, c) == i
  {
    if i > 0 {
      assert s[0] == s[..i][0];
      assert s[1..][..i - 1] == s[..i][1..];
      IndexOfFirst(s[1..], c, i - 1);
    }
  }
}

/**
 * The three regular expressions NGINX's open-edition status page is read
 * with (`nginxStatusExpressions` in `integrations/nginx/src/metrics.go`),
 * as sequences of three kinds of token: a literal, a run of white space
 * (`\s*` or `\s+`) and a captured run of decimal digits (`(?P<name>\d+)`).
 * `FindSubmatch` is the unanchored, leftmost search of
 * `Regexp.FindStringSubmatch`; its greedy runs are shown to find a match
 * exactly when some position of the line begins text the expression
 * describes.
 */
module NginxStatus {
  import opened Wrappers
  import opened GoStrings
  import opened GoStrconv

  /** One piece of an expression. */
  datatype Token =
    | Literal(text: string)      // the text itself
    | Spaces(atLeastOne: bool)   // `\s+` when atLeastOne, else `\s*`
    | Digits(name: string)       // `(?P<name>\d+)`

  type Expression = seq<Token>

  /** A named group and the text it captured. */
  datatype Capture = Capture(name: string, text: string)

  /** RE2's `\s`: tab, newline, form feed, carriage return and space. */
  predicate IsRegexSpace(c: char) {
    c == '\t' || c == '\n' || c == 12 as char || c == '\r' || c == ' '
  }

  predicate AllSpaces(s: string) {
    forall i | 0 <= i < |s| :: IsRegexSpace(s[i])
  }

  /** Length of the longest prefix of `s` made of `\s` characters. */
  function SpaceRun(s: string): (n: nat)
    ensures n <= |s| && AllSpaces(s[..n])
    ensures n < |s| ==> !IsRegexSpace(s[n])
  {
    if s == [] || !IsRegexSpace(s[0]) then 0
    else
      var n := 1 + SpaceRun(s[1..]);
      assert s[..n] == [s[0]] + s[1..][..n - 1];
      n
  }

  /** The names of the expression's groups, in order. */
  function GroupNames(e: Expression): seq<string> {
    if e == [] then []
    else if e[0].Digits? then [e[0].name] + GroupNames(e[1..])
    else GroupNames(e[1..])
  }

  /** The captures name the expression's groups in order, and each holds a non-empty run of digits. */
  predicate CapturesOf(e: Expression, caps: seq<Capture>) {
    && |caps| == |GroupNames(e)|
    && forall i | 0 <= i < |caps| :: caps[i].name == GroupNames(e)[i] && caps[i].text != [] && AllDigits(caps[i].text)
  }

  /**
   * The relation an expression stands for: `e` describes a prefix of `s`
   * with captures `caps`, under some choice of run lengths.
   */
  ghost predicate Spans(s: string, e: Expression, caps: seq<Capture>)
    decreases |e|
  {
    if e == [] then caps == []
    else match e[0]
      case Literal(t) => HasPrefix(s, t) && Spans(s[|t|..], e[1..], caps)
      case Spaces(one) =>
        exists n | (if one then 1 else 0) <= n <= |s| :: AllSpaces(s[..n]) && Spans(s[n..], e[1..], caps)
      case Digits(name) =>
        exists n | 1 <= n <= |s| ::
          AllDigits(s[..n]) && caps != [] && caps[0] == Capture(name, s[..n]) && Spans(s[n..], e[1..], caps[1..])
  }

  /**
   * The greedy matcher anchored at the start of `s`: each run takes as
   * many characters as it can, as RE2's leftmost-first semantics prefers.
   */
  function MatchPrefix(s: string, e: Expression): (r: Option<seq<Capture>>)
    ensures r.Some? ==> CapturesOf(e, r.value)
    decreases |e|
  {
    if e == [] then Some([])
    else match e[0]
      case Literal(t) =>
        if HasPrefix(s, t) then MatchPrefix(s[|t|..], e[1..]) else None
      case Spaces(one) =>
        var n := SpaceRun(s);
        if one && n == 0 then None else MatchPrefix(s[n..], e[1..])
      case Digits(name) =>
        var n := DigitRun(s);
        if n == 0 then None
        else match MatchPrefix(s[n..], e[1..])
          case None => None
          case Some(rest) => Some([Capture(name, s[..n])] + rest)
  }

  /** `FindStringSubmatch`: the match at the leftmost position of `s` where there is one. */
  function FindSubmatch(s: string, e: Expression): (r: Option<seq<Capture>>)
    ensures r.Some? ==> CapturesOf(e, r.value)
    decreases |s|
  {
    if MatchPrefix(s, e).Some? then MatchPrefix(s, e)
    else if s == [] then None
    else FindSubmatch(s[1..], e)
  }

  /**
   * The condition under which greedy runs lose nothing: a white-space run
   * is followed by a group or a literal that does not start with white
   * space, and a group by `\s+` or a literal that does not start with a digit.
   */
  predicate Follows(a: Token, b: Token) {
    && (a.Spaces? ==> b.Digits? || (b.Literal? && b.text != [] && !IsRegexSpace(b.text[0])))
    && (a.Digits? ==> (b.Spaces? && b.atLeastOne) || (b.Literal? && b.text != [] && !IsDigit(b.text[0])))
  }

  predicate Separated(e: Expression) {
    forall i | 0 <= i < |e| - 1 :: Follows(e[i], e[i + 1])
  }

  /** Every match the greedy matcher reports is one the expression describes. */
  lemma {:induction false} MatchPrefixSound(s: string, e: Expression)
    requires MatchPrefix(s, e).Some?
    ensures Spans(s, e, MatchPrefix(s, e).value)
    decreases |e|
  {
    if e != [] {
      var caps := MatchPrefix(s, e).value;
      match e[0]
      case Literal(t) =>
        MatchPrefixSound(s[|t|..], e[1..]);
      case Spaces(one) =>
        var n := SpaceRun(s);
        MatchPrefixSound(s[n..], e[1..]);
      case Digits(name) =>
        var n := DigitRun(s);
        MatchPrefixSound(s[n..], e[1..]);
        assert caps[1..] == MatchPrefix(s[n..], e[1..]).value;
    }
  }

  /** What text the first token of a described prefix must start with. */
  lemma SpansStart(s: string, e: Expression, caps: seq<Capture>)
    requires e != [] && Spans(s, e, caps)
    ensures e[0].Digits? ==> s != [] && IsDigit(s[0])
    ensures e[0].Spaces? && e[0].atLeastOne ==> s != [] && IsRegexSpace(s[0])
    ensures e[0].Literal? && e[0].text != [] ==> s != [] && s[0] == e[0].text[0]
  {
    match e[0]
    case Literal(t) =>
      if t != [] {
        assert s[..|t|][0] == s[0];
      }
    case Spaces(one) =>
      if one {
        var n :| 1 <= n <= |s| && AllSpaces(s[..n]) && Spans(s[n..], e[1..], caps);
        assert s[..n][0] == s[0];
      }
    case Digits(name) =>
      var n :| 1 <= n <= |s| && AllDigits(s[..n]) && caps != [] && caps[0] == Capture(name, s[..n]) && Spans(s[n..], e[1..], caps[1..]);
      assert s[..n][0] == s[0];
  }

  /**
   * Whenever the expression describes a prefix of `s`, under any run
   * lengths, the greedy matcher finds a match there.
   */
  lemma {:induction false} MatchPrefixComplete(s: string, e: Expression, caps: seq<Capture>)
    requires Separated(e) && Spans(s, e, caps)
    ensures MatchPrefix(s, e).Some?
    decreases |e|
  {
    if e != [] {
      SeparatedTail(e);
      match e[0]
      case Literal(t) =>
        MatchPrefixComplete(s[|t|..], e[1..], caps);
      case Spaces(one) =>
        var n :| (if one then 1 else 0) <= n <= |s| && AllSpaces(s[..n]) && Spans(s[n..], e[1..], caps);
        if e[1..] != [] {
          SpaceRunTaken(s, e, n, caps);
          MatchPrefixComplete(s[n..], e[1..], caps);
        }
      case Digits(name) =>
        var n :| 1 <= n <= |s| && AllDigits(s[..n]) && caps != [] && caps[0] == Capture(name, s[..n]) && Spans(s[n..], e[1..], caps[1..]);
        if e[1..] != [] {
          DigitRunTaken(s, e, n, caps[1..]);
          MatchPrefixComplete(s[n..], e[1..], caps[1..]);
        }
    }
  }

  lemma SeparatedTail(e: Expression)
    requires e != [] && Separated(e)
    ensures Separated(e[1..])
  {
    forall i | 0 <= i < |e[1..]| - 1
      ensures Follows(e[1..][i], e[1..][i + 1])
    {
      assert Follows(e[i + 1], e[i + 2]);
    }
  }

  /** A white-space run followed by more of the expression can only be the longest one. */
  lemma SpaceRunTaken(s: string, e: Expression, n: nat, caps: seq<Capture>)
    requires |e| >= 2 && e[0].Spaces? && Follows(e[0], e[1])
    requires n <= |s| && AllSpaces(s[..n]) && Spans(s[n..], e[1..], caps)
    ensures n == SpaceRun(s)
  {
    var m := SpaceRun(s);
    if n < m {
      assert s[..m][n] == s[n];
      SpansStart(s[n..], e[1..], caps);
    }
  }

  /** A digit run followed by more of the expression can only be the longest one. */
  lemma DigitRunTaken(s: string, e: Expression, n: nat, caps: seq<Capture>)
    requires |e| >= 2 && e[0].Digits? && Follows(e[0], e[1])
    requires n <= |s| && AllDigits(s[..n]) && Spans(s[n..], e[1..], caps)
    ensures n == DigitRun(s)
  {
    var m := DigitRun(s);
    if n < m {
      assert s[..m][n] == s[n];
      SpansStart(s[n..], e[1..], caps);
    }
  }

  /** The expression describes text starting at position `i` of `s`. */
  ghost predicate DescribedAt(s: string, e: Expression, i: nat)
    requires i <= |s|
  {
    exists caps :: Spans(s[i..], e, caps)
  }

  /**
   * `FindStringSubmatch` returns nil exactly when no position of the line,
   * the end included, begins text the expression describes.
   */
  lemma {:induction false} FindSubmatchNone(s: string, e: Expression)
    requires Separated(e)
    ensures FindSubmatch(s, e).None? <==> forall i | 0 <= i <= |s| :: !DescribedAt(s, e, i)
    decreases |s|
  {
    assert s[0..] == s;
    if MatchPrefix(s, e).Some? {
      MatchPrefixSound(s, e);
      assert DescribedAt(s, e, 0);
    } else {
      if DescribedAt(s, e, 0) {
        var caps :| Spans(s, e, caps);
        MatchPrefixComplete(s, e, caps);
      }
      if s != [] {
        FindSubmatchNone(s[1..], e);
        forall i | 1 <= i <= |s|
          ensures DescribedAt(s, e, i) <==> DescribedAt(s[1..], e, i - 1)
        {
          assert s[1..][i - 1..] == s[i..];
        }
        if FindSubmatch(s, e).None? {
          forall i | 0 <= i <= |s|
            ensures !DescribedAt(s, e, i)
          {
            if i > 0 {
              assert !DescribedAt(s[1..], e, i - 1);
            }
          }
        } else {
          var i :| 0 <= i <= |s[1..]| && DescribedAt(s[1..], e, i);
          assert DescribedAt(s, e, i + 1);
        }
      }
    }
  }

  /** `Active connections:\s+(?P<active>\d+)` */
  const ActiveExpression: Expression := [Literal("Active connections:"), Spaces(true), Digits("active")]

  /** `\s*(?P<accepted>\d+)\s+(?P<handled>\d+)\s+(?P<requests>\d+)` */
  const ServerExpression: Expression :=
    [Spaces(false), Digits("accepted"), Spaces(true), Digits("handled"), Spaces(true), Digits("requests")]

  /** `Reading: (?P<reading>\d+)\s+Writing: (?P<writing>\d+)\s+Waiting: (?P<waiting>\d+)` */
  const StatesExpression: Expression :=
    [Literal("Reading: "), Digits("reading"), Spaces(true), Literal("Writing: "), Digits("writing"),
     Spaces(true), Literal("Waiting: "), Digits("waiting")]

  /** One expression per line of the status page; the second line has none and is skipped. */
  const StatusExpressions: seq<Option<Expression>> :=
    [Some(ActiveExpression), None, Some(ServerExpression), Some(StatesExpression)]

  /** All three expressions meet the condition, so their matches are exact. */
  lemma StatusExpressionsSeparated()
    ensures forall i | 0 <= i < |StatusExpressions| && StatusExpressions[i].Some? :: Separated(StatusExpressions[i].value)
  {
    assert Separated(ActiveExpression);
    assert Separated(ServerExpression);
    assert Separated(StatesExpression);
  }

  /** The groups of the three expressions, in order. */
  lemma ActiveGroupNames()
    ensures GroupNames(ActiveExpression) == ["active"]
  {
    assert GroupNames(ActiveExpression[2..]) == ["active"];
  }

  lemma ServerGroupNames()
    ensures GroupNames(ServerExpression) == ["accepted", "handled", "requests"]
  {
    var e := ServerExpression;
    assert GroupNames(e[5..]) == ["requests"];
    assert GroupNames(e[3..]) == ["handled", "requests"];
    assert GroupNames(e[1..]) == ["accepted", "handled", "requests"];
  }

  lemma StatesGroupNames()
    ensures GroupNames(StatesExpression) == ["reading", "writing", "waiting"]
  {
    var e := StatesExpression;
    assert GroupNames(e[7..]) == ["waiting"];
    assert GroupNames(e[5..]) == GroupNames(e[6..]) == ["waiting"];
    assert GroupNames(e[4..]) == ["writing", "waiting"];
    assert GroupNames(e[2..]) == GroupNames(e[3..]) == ["writing", "waiting"];
    assert GroupNames(e[1..]) == ["reading", "writing", "waiting"];
  }
}

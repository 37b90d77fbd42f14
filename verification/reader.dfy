/**
 * `bufio.Reader.ReadString('\n')` over a byte stream whose contents are
 * known up front: the text the stream yields, then how it ends (end of file
 * or a read failure).
 */
module LineReader {
  import opened Wrappers
  import opened GoStrings

  /** How a stream ends: `io.EOF`, or any other read error. */
  datatype ReadError = EOF | Failure(message: string)

  /** A stream: the text still to be read, then its end condition. */
  datatype Input = Input(text: string, end: ReadError)

  /** A line as `ReadString('\n')` returns it without an error: non-empty, ending in a newline. */
  predicate Terminated(line: string) {
    |line| > 0 && line[|line| - 1] == '\n'
  }

  /** The result of one `ReadString('\n')`: the text read, the error, and the stream after. */
  datatype ReadResult = ReadResult(line: string, err: Option<ReadError>, rest: Input)

  /** `Peek(1)` succeeds exactly when there is at least one more byte. */
  predicate CanPeek(input: Input) {
    input.text != []
  }

  /**
   * `ReadString('\n')`: up to and including the first newline, without an
   * error; with no newline left, all the remaining text together with the
   * stream's end condition, which a later read meets again.
   */
  function ReadString(input: Input): (r: ReadResult)
    ensures r.err.None? <==> '\n' in input.text
    ensures r.err.None? ==> Terminated(r.line) && '\n' !in r.line[..|r.line| - 1]
    ensures r.err.Some? ==> r.line == input.text && r.err.value == input.end && r.rest == Input("", input.end)
    ensures r.line + r.rest.text == input.text
    ensures r.rest.end == input.end
    ensures r.err.None? ==> |r.rest.text| < |input.text|
  {
    if '\n' in input.text then
      var i := IndexOf(input.text, '\n');
      assert input.text[..i + 1][..i] == input.text[..i];
      assert input.text[..i + 1] + input.text[i + 1..] == input.text;
      ReadResult(input.text[..i + 1], None, Input(input.text[i + 1..], input.end))
    else
      ReadResult(input.text, Some(input.end), Input("", input.end))
  }

  /** The newline-terminated lines of a stream, in order: what the read loops see before their first error. */
  function CompleteLines(input: Input): (lines: seq<string>)
    ensures forall i | 0 <= i < |lines| :: Terminated(lines[i])
    decreases |input.text|
  {
    var r := ReadString(input);
    if r.err.None? then
      var tail := CompleteLines(r.rest);
      AllTerminated(r.line, tail);
      [r.line] + tail
    else []
  }

  /** A terminated line in front of terminated lines. */
  lemma AllTerminated(line: string, lines: seq<string>)
    requires Terminated(line)
    requires forall i | 0 <= i < |lines| :: Terminated(lines[i])
    ensures forall i | 0 <= i < |lines| + 1 :: Terminated(([line] + lines)[i])
  {
    forall i | 0 <= i < |lines| + 1
      ensures Terminated(([line] + lines)[i])
    {
      if i > 0 {
        assert ([line] + lines)[i] == lines[i - 1];
      }
    }
  }

  /** Concatenation of a sequence of strings. */
  function Concat(parts: seq<string>): (s: string)
    ensures |parts| > 0 ==> s == parts[0] + Concat(parts[1..])
  {
    if parts == [] then "" else parts[0] + Concat(parts[1..])
  }

  /**
   * A stream is its complete lines followed by a trailing piece that holds
   * no newline; that piece is never returned as a line.
   */
  lemma {:induction false} CompleteLinesCover(input: Input)
    ensures exists tail :: '\n' !in tail && input.text == Concat(CompleteLines(input)) + tail
    decreases |input.text|
  {
    var r := ReadString(input);
    if r.err.None? {
      CompleteLinesCover(r.rest);
      var tail :| '\n' !in tail && r.rest.text == Concat(CompleteLines(r.rest)) + tail;
      ConcatCons(input.text, r.line, r.rest.text, CompleteLines(r.rest), tail);
      assert CompleteLines(input) == [r.line] + CompleteLines(r.rest);
    } else {
      assert CompleteLines(input) == [];
      assert input.text == Concat([]) + input.text;
    }
  }

  /** One more line in front keeps a text the concatenation of its lines and a tail. */
  lemma ConcatCons(text: string, line: string, rest: string, lines: seq<string>, tail: string)
    requires text == line + rest && rest == Concat(lines) + tail
    ensures text == Concat([line] + lines) + tail
  {
    assert ([line] + lines)[1..] == lines;
  }

  /**
   * Appending text without a newline to a stream that ends with a complete
   * line (or is empty) does not change its complete lines.
   */
  lemma {:induction false} CompleteLinesIgnoreTail(text: string, tail: string, end: ReadError)
    requires text == [] || text[|text| - 1] == '\n'
    requires '\n' !in tail
    ensures CompleteLines(Input(text + tail, end)) == CompleteLines(Input(text, end))
    decreases |text|
  {
    if text == [] {
      assert text + tail == tail;
    } else {
      assert text[|text| - 1] in text;
      var r := ReadString(Input(text, end));
      ReadStringAppend(text, tail, end);
      var rest := r.rest.text;
      assert rest == [] || rest[|rest| - 1] == text[|text| - 1];
      CompleteLinesIgnoreTail(rest, tail, end);
    }
  }

  /** Text appended after a newline does not change the line read before it. */
  lemma ReadStringAppend(text: string, tail: string, end: ReadError)
    requires '\n' in text
    ensures var r := ReadString(Input(text, end));
      ReadString(Input(text + tail, end)) == ReadResult(r.line, None, Input(r.rest.text + tail, end))
  {
    var i := IndexOf(text, '\n');
    assert (text + tail)[..i] == text[..i];
    assert (text + tail)[i] == '\n';
    IndexOfFirst(text + tail, '\n', i);
    assert (text + tail)[..i + 1] == text[..i + 1];
    assert (text + tail)[i + 1..] == text[i + 1..] + tail;
  }

  /** A map with one more entry, when there is one. */
  function Put<V>(m: map<string, V>, entry: Option<(string, V)>): (r: map<string, V>)
    ensures entry.None? ==> r == m
    ensures entry.Some? ==> r == m[entry.value.0 := entry.value.1]
  {
    if entry.Some? then m[entry.value.0 := entry.value.1] else m
  }

  /**
   * The map a read loop builds: each line, in order, may contribute one
   * entry, which overwrites any earlier one under the same key.
   */
  function Collect<V>(m: map<string, V>, lines: seq<string>, entry: string --> Option<(string, V)>): map<string, V>
    requires forall i | 0 <= i < |lines| :: entry.requires(lines[i])
    decreases |lines|
  {
    if lines == [] then m else Collect(Put(m, entry(lines[0])), lines[1..], entry)
  }

  /** Some line contributes an entry under `key`. */
  ghost predicate Names<V>(lines: seq<string>, entry: string --> Option<(string, V)>, key: string)
    requires forall i | 0 <= i < |lines| :: entry.requires(lines[i])
  {
    exists i | 0 <= i < |lines| :: entry(lines[i]).Some? && entry(lines[i]).value.0 == key
  }

  /** A key is in the collected map exactly when it was there already or some line contributes it. */
  lemma {:induction false} CollectKeys<V>(m: map<string, V>, lines: seq<string>, entry: string --> Option<(string, V)>, key: string)
    requires forall i | 0 <= i < |lines| :: entry.requires(lines[i])
    ensures key in Collect(m, lines, entry) <==> key in m || Names(lines, entry, key)
    decreases |lines|
  {
    if lines != [] {
      var tail := lines[1..];
      CollectKeys(Put(m, entry(lines[0])), tail, entry, key);
      if Names(tail, entry, key) {
        var i :| 0 <= i < |tail| && entry(tail[i]).Some? && entry(tail[i]).value.0 == key;
        assert lines[i + 1] == tail[i];
      }
      if Names(lines, entry, key) {
        var i :| 0 <= i < |lines| && entry(lines[i]).Some? && entry(lines[i]).value.0 == key;
        if i > 0 {
          assert tail[i - 1] == lines[i];
        }
      }
    }
  }

  /** Lines that do not contribute `key` leave its entry alone. */
  lemma {:induction false} CollectUntouched<V>(m: map<string, V>, lines: seq<string>, entry: string --> Option<(string, V)>, key: string)
    requires forall i | 0 <= i < |lines| :: entry.requires(lines[i])
    requires key in m && !Names(lines, entry, key)
    ensures key in Collect(m, lines, entry) && Collect(m, lines, entry)[key] == m[key]
    decreases |lines|
  {
    if lines != [] {
      var tail := lines[1..];
      forall i | 0 <= i < |tail|
        ensures !(entry(tail[i]).Some? && entry(tail[i]).value.0 == key)
      {
        assert tail[i] == lines[i + 1];
      }
      assert !(entry(lines[0]).Some? && entry(lines[0]).value.0 == key);
      CollectUntouched(Put(m, entry(lines[0])), tail, entry, key);
    }
  }

  /** The value under a key is the one contributed by the last line that contributes that key. */
  lemma {:induction false} CollectLastWins<V>(m: map<string, V>, lines: seq<string>, entry: string --> Option<(string, V)>, i: nat)
    requires forall j | 0 <= j < |lines| :: entry.requires(lines[j])
    requires i < |lines| && entry(lines[i]).Some?
    requires !Names(lines[i + 1..], entry, entry(lines[i]).value.0)
    ensures entry(lines[i]).value.0 in Collect(m, lines, entry)
    ensures Collect(m, lines, entry)[entry(lines[i]).value.0] == entry(lines[i]).value.1
    decreases |lines|
  {
    if i == 0 {
      CollectUntouched(Put(m, entry(lines[0])), lines[1..], entry, entry(lines[0]).value.0);
    } else {
      assert lines[1..][i - 1 + 1..] == lines[i + 1..];
      CollectLastWins(Put(m, entry(lines[0])), lines[1..], entry, i - 1);
    }
  }

  /** When every line that contributes `key` contributes the same value, that value is what the map holds. */
  lemma {:induction false} CollectSameValue<V>(m: map<string, V>, lines: seq<string>, entry: string --> Option<(string, V)>, key: string, v: V)
    requires forall i | 0 <= i < |lines| :: entry.requires(lines[i])
    requires forall i | 0 <= i < |lines| :: entry(lines[i]).Some? && entry(lines[i]).value.0 == key ==> entry(lines[i]).value.1 == v
    requires key in m ==> m[key] == v
    ensures key in m || Names(lines, entry, key) ==> key in Collect(m, lines, entry) && Collect(m, lines, entry)[key] == v
    decreases |lines|
  {
    if lines != [] {
      var tail := lines[1..];
      var m' := Put(m, entry(lines[0]));
      if Names(lines, entry, key) {
        var i :| 0 <= i < |lines| && entry(lines[i]).Some? && entry(lines[i]).value.0 == key;
        if i > 0 {
          assert tail[i - 1] == lines[i];
        }
      }
      forall i | 0 <= i < |tail| && entry(tail[i]).Some? && entry(tail[i]).value.0 == key
        ensures entry(tail[i]).value.1 == v
      {
        assert tail[i] == lines[i + 1];
      }
      CollectSameValue(m', tail, entry, key, v);
    }
  }
}

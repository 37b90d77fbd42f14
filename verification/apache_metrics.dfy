/**
 * The Apache integration's metrics side (`integrations/apache/src/metrics.go`):
 * the server-status page is read line by line into a raw bag, and the
 * definition table turns the bag into the sample's metrics, three of its
 * entries derived from the worker scoreboard and the traffic counter.
 */
module ApacheMetrics {
  import opened Wrappers
  import opened Values
  import opened GoStrings
  import opened LineReader
  import opened Coercion
  import opened Sdk
  import opened Populator

  /** `getWorkerStatus(status)` applied to a bag: how often `status` occurs in the Scoreboard string. */
  function WorkerStatus(status: string, bag: Bag): (r: (Float, bool))
    ensures r.1 <==> "Scoreboard" in bag && bag["Scoreboard"].Str?
    ensures r.1 ==> r.0 == FromInt(Count(bag["Scoreboard"].s, status))
    ensures !r.1 ==> r.0 == Finite(0.0)
  {
    var (scoreboard, ok) := StrAt(bag, "Scoreboard");
    if ok then (FromInt(Count(scoreboard, status)), true) else (Finite(0.0), false)
  }

  /** `getTotalWorkers`: the length of the Scoreboard string, one character per worker slot. */
  function TotalWorkers(bag: Bag): (r: (Float, bool))
    ensures r.1 <==> "Scoreboard" in bag && bag["Scoreboard"].Str?
    ensures r.1 ==> r.0 == FromInt(|bag["Scoreboard"].s|)
    ensures !r.1 ==> r.0 == Finite(0.0)
  {
    var (scoreboard, ok) := StrAt(bag, "Scoreboard");
    if ok then (FromInt(|scoreboard|), true) else (Finite(0.0), false)
  }

  /** `getBytes`: "Total kBytes" times 1024 in Go's 64-bit int arithmetic, only when it is an int. */
  function Bytes(bag: Bag): (r: (Float, bool))
    ensures r.1 <==> "Total kBytes" in bag && bag["Total kBytes"].Int?
    ensures r.1 ==> r.0 == FromInt(Wrap64(bag["Total kBytes"].i * 1024))
    ensures !r.1 ==> r.0 == Finite(0.0)
  {
    var (kBytes, ok) := IntAt(bag, "Total kBytes");
    if ok then (FromInt(Wrap64(kBytes * 1024)), true) else (Finite(0.0), false)
  }

  /** A kilobyte count whose byte count fits in 64 bits converts exactly. */
  lemma BytesExact(bag: Bag)
    requires "Total kBytes" in bag && bag["Total kBytes"].Int?
    requires InInt64(bag["Total kBytes"].i * 1024)
    ensures Bytes(bag) == (Finite((bag["Total kBytes"].i * 1024) as real), true)
  {
  }

  /** The unit tests of `getBytes`: 67 gives 68608; a float or a missing key gives (0, false). */
  lemma BytesExamples()
    ensures Bytes(map["Total kBytes" := Int(67)]) == (Finite(68608.0), true)
    ensures Bytes(map["Total kBytes" := Float64(Finite(67.4))]) == (Finite(0.0), false)
    ensures Bytes(map["TotalkBytes" := Int(67)]) == (Finite(0.0), false)
  {
  }

  /** The worker states the table counts, one letter each. */
  const WorkerStates: string := "WLGRCKDIS"

  /** The sum of the occurrence counts in `s` of each letter of `letters`. */
  function StatusTotal(s: string, letters: string): nat {
    if letters == [] then 0 else Count(s, [letters[0]]) + StatusTotal(s, letters[1..])
  }

  /** How often `c` occurs in `letters`. */
  function Occurrences(letters: string, c: char): nat {
    if letters == [] then 0 else (if letters[0] == c then 1 else 0) + Occurrences(letters[1..], c)
  }

  /** No letter occurs twice. */
  predicate Distinct(letters: string) {
    letters == [] || (letters[0] !in letters[1..] && Distinct(letters[1..]))
  }

  /**
   * Distinct status letters never count more workers than there are slots:
   * the per-state worker metrics add up to at most `provider.totalWorkers`.
   */
  lemma {:induction false} StatusTotalWithinLength(s: string, letters: string)
    requires Distinct(letters)
    ensures StatusTotal(s, letters) <= |s|
  {
    if s != [] {
      StatusTotalWithinLength(s[1..], letters);
      StatusTotalStep(s, letters);
      OccurrencesOfDistinct(letters, s[0]);
    } else {
      StatusTotalOfEmpty(letters);
    }
  }

  lemma {:induction false} StatusTotalOfEmpty(letters: string)
    ensures StatusTotal("", letters) == 0
  {
    if letters != [] {
      StatusTotalOfEmpty(letters[1..]);
    }
  }

  /** Removing the first slot removes one count from each letter equal to it. */
  lemma {:induction false} StatusTotalStep(s: string, letters: string)
    requires s != []
    ensures StatusTotal(s, letters) == StatusTotal(s[1..], letters) + Occurrences(letters, s[0])
  {
    if letters != [] {
      StatusTotalStep(s, letters[1..]);
      CountChar(s, letters[0]);
      CountChar(s[1..], letters[0]);
      assert s == [s[0]] + s[1..];
    }
  }

  lemma {:induction false} OccurrencesOfDistinct(letters: string, c: char)
    requires Distinct(letters)
    ensures Occurrences(letters, c) <= 1
  {
    if letters != [] {
      OccurrencesOfDistinct(letters[1..], c);
      if letters[0] == c {
        OccurrencesAbsent(letters[1..], c);
      }
    }
  }

  lemma {:induction false} OccurrencesAbsent(letters: string, c: char)
    requires c !in letters
    ensures Occurrences(letters, c) == 0
  {
    if letters != [] {
      OccurrencesAbsent(letters[1..], c);
    }
  }

  /** The table's nine worker-state counts add up to at most the total number of workers. */
  lemma WorkerStatesWithinTotal(scoreboard: string)
    ensures StatusTotal(scoreboard, WorkerStates) <= |scoreboard|
  {
    WorkerStatesDistinct();
    StatusTotalWithinLength(scoreboard, WorkerStates);
  }

  lemma WorkerStatesDistinct()
    ensures Distinct(WorkerStates)
  {
    MiddleStatesDistinct();
    DistinctCons('L', "GRCKDIS");
    DistinctCons('W', "LGRCKDIS");
  }

  lemma MiddleStatesDistinct()
    ensures Distinct("GRCKDIS")
  {
    LastStatesDistinct();
    DistinctCons('K', "DIS");
    DistinctCons('C', "KDIS");
    DistinctCons('R', "CKDIS");
    DistinctCons('G', "RCKDIS");
  }

  lemma LastStatesDistinct()
    ensures Distinct("DIS")
  {
    DistinctCons('S', "");
    DistinctCons('I', "S");
    DistinctCons('D', "IS");
  }

  lemma DistinctCons(c: char, rest: string)
    requires Distinct(rest) && c !in rest
    ensures Distinct([c] + rest)
  {
    assert ([c] + rest)[1..] == rest;
  }

  /** `metricsDefinition`: output metric name to raw source and kind. */
  const MetricsDefinition: Table := map[
    "provider.requestsPerSecond" := Definition(Direct("Total Accesses"), Counter),
    "provider.bytesPerSecond" := Definition(FloatFunc(Bytes), Counter),
    "provider.idleWorkers" := Definition(Direct("IdleWorkers"), Gauge),
    "provider.busyWorkers" := Definition(Direct("BusyWorkers"), Gauge),
    "provider.writingWorkers" := Definition(FloatFunc(bag => WorkerStatus("W", bag)), Gauge),
    "provider.loggingWorkers" := Definition(FloatFunc(bag => WorkerStatus("L", bag)), Gauge),
    "provider.gracefulWorkers" := Definition(FloatFunc(bag => WorkerStatus("G", bag)), Gauge),
    "provider.readingWorkers" := Definition(FloatFunc(bag => WorkerStatus("R", bag)), Gauge),
    "provider.closingWorkers" := Definition(FloatFunc(bag => WorkerStatus("C", bag)), Gauge),
    "provider.keepaliveWorkers" := Definition(FloatFunc(bag => WorkerStatus("K", bag)), Gauge),
    "provider.DNSLookupWorkers" := Definition(FloatFunc(bag => WorkerStatus("D", bag)), Gauge),
    "provider.idleCleanupWorkers" := Definition(FloatFunc(bag => WorkerStatus("I", bag)), Gauge),
    "provider.startingWorkers" := Definition(FloatFunc(bag => WorkerStatus("S", bag)), Gauge),
    "provider.totalWorkers" := Definition(FloatFunc(TotalWorkers), Gauge)
  ]

  /** A status line that splits on ':' into exactly two parts; any other line is skipped. */
  predicate IsStatusLine(line: string) {
    |Split(line, ':')| == 2
  }

  /** The key a status line is stored under: the untrimmed text before the colon. */
  function KeyOf(line: string): string {
    Split(line, ':')[0]
  }

  /** The entry a status line contributes: the untrimmed key, the coerced trimmed value. */
  function StatusEntry(line: string): (e: Option<(string, Value)>)
    ensures e.Some? <==> IsStatusLine(line)
    ensures e.Some? ==> e.value == (KeyOf(line), AsValue(TrimSpace(Split(line, ':')[1])))
  {
    var parts := Split(line, ':');
    if |parts| == 2 then Some((parts[0], AsValue(TrimSpace(parts[1])))) else None
  }

  /** The raw bag after the status lines, in order: a later line for the same key overwrites. */
  function AddStatusLines(metrics: Bag, lines: seq<string>): Bag {
    Collect(metrics, lines, StatusEntry)
  }

  /**
   * What `getRawMetrics` returns: "Empty result" when there is nothing to
   * read, the read error when the stream fails, "Empty result" when no
   * complete line is a status line, and otherwise the raw bag.
   */
  function RawMetrics(input: Input): Result<Bag, string> {
    if !CanPeek(input) then Err("Empty result")
    else if input.end.Failure? then Err(input.end.message)
    else
      var metrics := AddStatusLines(map[], CompleteLines(input));
      if metrics == map[] then Err("Empty result") else Ok(metrics)
  }

  /** `getRawMetrics`: reads lines until the end of the stream, collecting status lines into a bag. */
  method GetRawMetrics(input: Input) returns (r: Result<Bag, string>)
    ensures r == RawMetrics(input)
  {
    if !CanPeek(input) {
      return Err("Empty result");
    }
    var metrics: Bag := map[];
    var rest := input;
    while true
      invariant rest.end == input.end
      invariant AddStatusLines(metrics, CompleteLines(rest)) == AddStatusLines(map[], CompleteLines(input))
      decreases |rest.text|
    {
      var read := ReadString(rest);
      if read.err == Some(EOF) {
        break;
      }
      if read.err.Some? {
        return Err(read.err.value.message);
      }
      ghost var before := metrics;
      var parts := Split(read.line, ':');
      if |parts| == 2 {
        metrics := metrics[parts[0] := AsValue(TrimSpace(parts[1]))];
      }
      assert metrics == Put(before, StatusEntry(read.line));
      rest := read.rest;
    }
    if metrics == map[] {
      return Err("Empty result");
    }
    return Ok(metrics);
  }

  /** The value under a key is the coerced value of the last status line that names it. */
  lemma RawMetricsLastWins(input: Input, i: nat)
    requires RawMetrics(input).Ok?
    requires i < |CompleteLines(input)| && IsStatusLine(CompleteLines(input)[i])
    requires forall j | i < j < |CompleteLines(input)| ::
      !(IsStatusLine(CompleteLines(input)[j]) && KeyOf(CompleteLines(input)[j]) == KeyOf(CompleteLines(input)[i]))
    ensures KeyOf(CompleteLines(input)[i]) in RawMetrics(input).value
    ensures RawMetrics(input).value[KeyOf(CompleteLines(input)[i])] == AsValue(TrimSpace(Split(CompleteLines(input)[i], ':')[1]))
  {
    var lines := CompleteLines(input);
    var key := KeyOf(lines[i]);
    var later := lines[i + 1..];
    forall j | 0 <= j < |later|
      ensures !(StatusEntry(later[j]).Some? && StatusEntry(later[j]).value.0 == key)
    {
      assert later[j] == lines[i + 1 + j];
    }
    CollectLastWins(map[], lines, StatusEntry, i);
  }

  /** Nothing to read: "Empty result". */
  lemma RawMetricsOfEmpty(end: ReadError)
    ensures RawMetrics(Input("", end)) == Err("Empty result")
  {
  }

  /** A stream ending in EOF whose complete lines hold no status line: "Empty result". */
  lemma RawMetricsWithoutStatusLines(input: Input)
    requires input.end == EOF
    requires forall i | 0 <= i < |CompleteLines(input)| :: !IsStatusLine(CompleteLines(input)[i])
    ensures RawMetrics(input) == Err("Empty result")
  {
    var lines := CompleteLines(input);
    var m := AddStatusLines(map[], lines);
    if m != map[] {
      var key :| key in m;
      CollectKeys(map[], lines, StatusEntry, key);
    }
  }

  /**
   * The bag holds exactly the keys of the complete status lines, each with
   * the coerced value of the last such line.
   */
  lemma RawMetricsContents(input: Input, key: string)
    requires RawMetrics(input).Ok?
    ensures key in RawMetrics(input).value <==>
      exists i | 0 <= i < |CompleteLines(input)| :: IsStatusLine(CompleteLines(input)[i]) && KeyOf(CompleteLines(input)[i]) == key
  {
    assert RawMetrics(input).value == AddStatusLines(map[], CompleteLines(input));
    StatusLineKeys(CompleteLines(input), key);
  }

  /** A key is in the bag built from `lines` exactly when some status line in them names it. */
  lemma StatusLineKeys(lines: seq<string>, key: string)
    ensures key in AddStatusLines(map[], lines) <==>
      exists i | 0 <= i < |lines| :: IsStatusLine(lines[i]) && KeyOf(lines[i]) == key
  {
    CollectKeys(map[], lines, StatusEntry, key);
  }

  /**
   * A final line with no newline is never stored: appending one to a
   * stream that ends in EOF does not change the result.
   */
  lemma RawMetricsIgnoreUnterminatedLine(text: string, tail: string)
    requires text == [] || text[|text| - 1] == '\n'
    requires '\n' !in tail
    ensures RawMetrics(Input(text + tail, EOF)) == RawMetrics(Input(text, EOF))
  {
    CompleteLinesIgnoreTail(text, tail, EOF);
    if text == [] {
      assert ReadString(Input(text, EOF)).err.Some?;
      NoLinesNoMetrics(Input(text + tail, EOF));
    } else {
      SameLinesSameMetrics(Input(text + tail, EOF), Input(text, EOF));
    }
  }

  /** Two streams ending in EOF, both with something to peek, that hold the same complete lines give the same result. */
  lemma SameLinesSameMetrics(a: Input, b: Input)
    requires a.end == EOF && b.end == EOF && CanPeek(a) && CanPeek(b)
    requires CompleteLines(a) == CompleteLines(b)
    ensures RawMetrics(a) == RawMetrics(b)
  {
  }

  /** A stream ending in EOF without complete lines has no metrics. */
  lemma NoLinesNoMetrics(input: Input)
    requires input.end == EOF && CompleteLines(input) == []
    ensures RawMetrics(input) == Err("Empty result")
  {
    assert AddStatusLines(map[], []) == map[];
  }

  /** `populateMetrics` with Apache's table: float64 functions accepted; the result is always nil. */
  method PopulateMetrics(sample: MetricSet, metrics: Bag, write: Write) returns (err: Option<string>)
    modifies sample
    ensures err == None
    ensures sample.metrics == Populated(old(sample.metrics), metrics, MetricsDefinition, FloatFuncs, write)
  {
    Populate(sample, metrics, MetricsDefinition, FloatFuncs, write);
    return None;
  }

  /**
   * `getMetricsData` once the status page has been fetched: the raw-metric
   * error is returned as it is; otherwise the table is populated.
   */
  method GetMetricsData(sample: MetricSet, body: Input, write: Write) returns (err: Option<string>)
    modifies sample
    ensures RawMetrics(body).Err? ==> err == Some(RawMetrics(body).error) && sample.metrics == old(sample.metrics)
    ensures RawMetrics(body).Ok? ==> err == None
    ensures RawMetrics(body).Ok? ==>
      sample.metrics == Populated(old(sample.metrics), RawMetrics(body).value, MetricsDefinition, FloatFuncs, write)
  {
    var raw := GetRawMetrics(body);
    if raw.Err? {
      return Some(raw.error);
    }
    err := PopulateMetrics(sample, raw.value, write);
  }
}

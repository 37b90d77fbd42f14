/**
 * The NGINX integration's metrics side (`integrations/nginx/src/metrics.go`):
 * the open-edition status page read line by line against
 * `nginxStatusExpressions`, the Plus edition's JSON flattened to
 * `root.key` names, and the table chosen by the response's content type
 * and populated into the sample with int-returning functions.
 */
module NginxMetrics {
  import opened Wrappers
  import opened Values
  import opened GoStrings
  import opened GoStrconv
  import opened LineReader
  import opened Sdk
  import opened Populator
  import opened NginxStatus

  /** How a step can fail: an error value returned, or a Go runtime panic. */
  datatype Fault = Error(message: string) | Panic(reason: string)

  /** `connectionsDroppedPerSecond`: accepted minus handled in Go's 64-bit `int`, when both are ints. */
  function ConnectionsDropped(bag: Bag): (r: (int, bool))
    ensures r.1 <==> "accepted" in bag && bag["accepted"].Int? && "handled" in bag && bag["handled"].Int?
    ensures r.1 ==> r.0 == Wrap64(bag["accepted"].i - bag["handled"].i)
    ensures !r.1 ==> r.0 == 0
  {
    var (accepts, ok1) := IntAt(bag, "accepted");
    var (handled, ok2) := IntAt(bag, "handled");
    if ok1 && ok2 then (Wrap64(accepts - handled), true) else (0, false)
  }

  /**
   * Counters read from the status page are non-negative 64-bit ints, and
   * their difference never wraps: the dropped count is exact.
   */
  lemma ConnectionsDroppedExact(bag: Bag)
    requires "accepted" in bag && bag["accepted"].Int? && 0 <= bag["accepted"].i <= MaxInt64
    requires "handled" in bag && bag["handled"].Int? && 0 <= bag["handled"].i <= MaxInt64
    ensures ConnectionsDropped(bag) == (bag["accepted"].i - bag["handled"].i, true)
  {
  }

  /** `metricsPlusDefinition`. */
  const PlusDefinition: Table := map[
    "provider.connectionsActive" := Definition(Direct("connections.active"), Gauge),
    "provider.connectionsIdle" := Definition(Direct("connections.idle"), Gauge),
    "provider.connectionsAcceptedPerSecond" := Definition(Direct("connections.accepted"), Counter),
    "provider.connectionsDroppedPerSecond" := Definition(Direct("connections.dropped"), Counter),
    "provider.requestsPerSecond" := Definition(Direct("requests.total"), Counter),
    "software.edition" := Definition(Direct("edition"), Attribute),
    "software.version" := Definition(Direct("version"), Attribute)
  ]

  /** `metricsStandardDefinition`. */
  const StandardDefinition: Table := map[
    "provider.connectionsActive" := Definition(Direct("active"), Gauge),
    "provider.reading" := Definition(Direct("reading"), Gauge),
    "provider.waiting" := Definition(Direct("waiting"), Gauge),
    "provider.writing" := Definition(Direct("writing"), Gauge),
    "provider.requestsPerSecond" := Definition(Direct("requests"), Counter),
    "provider.connectionsAcceptedPerSecond" := Definition(Direct("accepted"), Counter),
    "provider.connectionsDroppedPerSecond" := Definition(IntFunc(ConnectionsDropped), Counter),
    "software.edition" := Definition(Direct("edition"), Attribute),
    "software.version" := Definition(Direct("version"), Attribute)
  ]

  // ---------------------------------------------------------------------
  // getStandardMetrics
  // ---------------------------------------------------------------------

  /** The error for a line that does not match its expression; `lineNo` counts from 0. */
  function LineError(lineNo: nat): string {
    "Line " + FormatInt(lineNo) + " of status doesn't match"
  }

  /** One captured group stored as an int; digits that do not convert are skipped. */
  function StoreCapture(metrics: Bag, c: Capture): (m: Bag)
    ensures Atoi(c.text).None? ==> m == metrics
    ensures Atoi(c.text).Some? ==> m == metrics[c.name := Int(Atoi(c.text).value)]
  {
    match Atoi(c.text)
    case None => metrics
    case Some(v) => metrics[c.name := Int(v)]
  }

  /** The captured groups stored in order. */
  function StoreCaptures(metrics: Bag, caps: seq<Capture>): Bag
    decreases |caps|
  {
    if caps == [] then metrics else StoreCaptures(StoreCapture(metrics, caps[0]), caps[1..])
  }

  /**
   * One line read against its slot: a line without an expression leaves
   * the entries alone, a line that does not match has no result, and a
   * match stores its groups.
   */
  function Absorb(line: string, slot: Option<Expression>, metrics: Bag): Option<Bag> {
    if slot.None? then Some(metrics)
    else match FindSubmatch(line, slot.value)
      case None => None
      case Some(caps) => Some(StoreCaptures(metrics, caps))
  }

  /**
   * What `getStandardMetrics` returns when the remaining lines are read
   * against `slots`, the first of them being line `lineNo`: the entries so
   * far at the end of the stream, an error for a line that does not match,
   * and after the last slot the entries with version "" and edition
   * "open source".
   */
  function StandardFrom(input: Input, slots: seq<Option<Expression>>, lineNo: nat, metrics: Bag): Result<Bag, string>
    decreases |slots|
  {
    if slots == [] then Ok(metrics["version" := Str("")]["edition" := Str("open source")])
    else
      var read := ReadString(input);
      if read.err == Some(EOF) then Ok(metrics)
      else match Absorb(read.line, slots[0], metrics)
        case None => Err(LineError(lineNo))
        case Some(next) => StandardFrom(read.rest, slots[1..], lineNo + 1, next)
  }

  /** `getStandardMetrics` on a whole status page. */
  function StandardMetrics(input: Input): Result<Bag, string> {
    StandardFrom(input, StatusExpressions, 0, map[])
  }

  /** `getStandardMetrics`: one line per expression slot, in order. */
  method GetStandardMetrics(input: Input) returns (r: Result<Bag, string>)
    ensures r == StandardMetrics(input)
  {
    var metrics: Bag := map[];
    var reader := input;
    for lineNo := 0 to |StatusExpressions|
      invariant StandardFrom(reader, StatusExpressions[lineNo..], lineNo, metrics) == StandardMetrics(input)
    {
      assert StatusExpressions[lineNo..][1..] == StatusExpressions[lineNo + 1..];
      var read := ReadString(reader);
      reader := read.rest;
      if read.err == Some(EOF) {
        return Ok(metrics);
      }
      var re := StatusExpressions[lineNo];
      if re.None? {
        continue;
      }
      var found := FindSubmatch(read.line, re.value);
      if found.None? {
        return Err(LineError(lineNo));
      }
      metrics := StoreGroups(metrics, found.value);
    }
    metrics := metrics["version" := Str("")];
    metrics := metrics["edition" := Str("open source")];
    return Ok(metrics);
  }

  /** The loop over a match's groups: each converted with `Atoi` and stored, or skipped. */
  method StoreGroups(metrics: Bag, caps: seq<Capture>) returns (m: Bag)
    ensures m == StoreCaptures(metrics, caps)
  {
    m := metrics;
    for i := 0 to |caps|
      invariant StoreCaptures(m, caps[i..]) == StoreCaptures(metrics, caps)
    {
      assert caps[i..][1..] == caps[i + 1..];
      var value := Atoi(caps[i].text);
      if value.Some? {
        m := m[caps[i].name := Int(value.value)];
      }
    }
    assert caps[|caps|..] == [];
  }

  /** The error names a line that has an expression: line 0, 2 or 3, never the skipped line 1. */
  lemma StandardErrorLines(input: Input)
    requires StandardMetrics(input).Err?
    ensures StandardMetrics(input).error in {LineError(0), LineError(2), LineError(3)}
  {
    StandardFromError(input, StatusExpressions, 0, map[]);
    ShapeErrorLines(StandardMetrics(input).error, ActiveExpression, ServerExpression, StatesExpression);
  }

  /**
   * Slots shaped like the status expressions (a gap on the second line)
   * can fail on the first, third and fourth lines.
   */
  lemma ShapeErrorLines(error: string, a: Expression, b: Expression, c: Expression)
    requires error in ErrorLines([Some(a), None, Some(b), Some(c)], 0)
    ensures error in {LineError(0), LineError(2), LineError(3)}
  {
    var s0 := [Some(a), None, Some(b), Some(c)];
    var s1 := [None, Some(b), Some(c)];
    var s2 := [Some(b), Some(c)];
    var s3 := [Some(c)];
    assert s0[1..] == s1 && s1[1..] == s2 && s2[1..] == s3 && s3[1..] == [];
    assert ErrorLines(s3, 3) == {LineError(3)};
    assert ErrorLines(s2, 2) == {LineError(2), LineError(3)};
    assert ErrorLines(s1, 1) == {LineError(2), LineError(3)};
    assert ErrorLines(s0, 0) == {LineError(0), LineError(2), LineError(3)};
  }

  /** The errors the slots can report: one per slot that has an expression, naming its line. */
  function ErrorLines(slots: seq<Option<Expression>>, lineNo: nat): set<string>
    decreases |slots|
  {
    if slots == [] then {}
    else (if slots[0].Some? then {LineError(lineNo)} else {}) + ErrorLines(slots[1..], lineNo + 1)
  }

  lemma {:induction false} StandardFromError(input: Input, slots: seq<Option<Expression>>, lineNo: nat, metrics: Bag)
    requires StandardFrom(input, slots, lineNo, metrics).Err?
    ensures StandardFrom(input, slots, lineNo, metrics).error in ErrorLines(slots, lineNo)
    decreases |slots|
  {
    var read := ReadString(input);
    var next := Absorb(read.line, slots[0], metrics);
    StandardFromStep(input, slots, lineNo, metrics);
    if next.Some? {
      StandardFromError(read.rest, slots[1..], lineNo + 1, next.value);
    }
  }

  /** The names of the groups of the three expressions. */
  const GroupKeys: set<string> := {"active", "accepted", "handled", "requests", "reading", "writing", "waiting"}

  /** Entries before the last line: every key a group name holding a non-negative int. */
  ghost predicate Groups(m: Bag) {
    forall k | k in m :: k in GroupKeys && m[k].Int? && m[k].i >= 0
  }

  /** A finished bag: the groups, and version "" and edition "open source". */
  ghost predicate Finished(m: Bag) {
    && "version" in m && m["version"] == Str("")
    && "edition" in m && m["edition"] == Str("open source")
    && forall k | k in m && k != "version" && k != "edition" :: k in GroupKeys && m[k].Int? && m[k].i >= 0
  }

  /** Every group each slot's expression captures is one of the status keys. */
  ghost predicate SlotsNamed(slots: seq<Option<Expression>>) {
    forall j, i | 0 <= j < |slots| && slots[j].Some? && 0 <= i < |GroupNames(slots[j].value)| :: GroupNames(slots[j].value)[i] in GroupKeys
  }

  lemma StatusSlotsNamed()
    ensures SlotsNamed(StatusExpressions)
  {
    ActiveGroupNames();
    ServerGroupNames();
    StatesGroupNames();
  }

  /** Captures each naming a status key and holding a run of digits keep `Groups`. */
  lemma {:induction false} StoreCapturesGroups(m: Bag, caps: seq<Capture>)
    requires Groups(m)
    requires forall i | 0 <= i < |caps| :: caps[i].name in GroupKeys && caps[i].text != [] && AllDigits(caps[i].text)
    ensures Groups(StoreCaptures(m, caps))
    decreases |caps|
  {
    if caps != [] {
      var c := caps[0];
      if Atoi(c.text).Some? {
        assert c.text[0] != '-' by {
          assert IsDigit(c.text[0]);
        }
      }
      var rest := caps[1..];
      assert forall i | 0 <= i < |rest| :: rest[i] == caps[i + 1];
      StoreCapturesGroups(StoreCapture(m, c), rest);
    }
  }

  /** What a line stores against its slot keeps `Groups`. */
  lemma AbsorbGroups(line: string, slots: seq<Option<Expression>>, m: Bag)
    requires slots != [] && SlotsNamed(slots) && Groups(m)
    ensures Absorb(line, slots[0], m).Some? ==> Groups(Absorb(line, slots[0], m).value)
  {
    if slots[0].Some? && FindSubmatch(line, slots[0].value).Some? {
      StoreCapturesGroups(m, FindSubmatch(line, slots[0].value).value);
    }
  }

  lemma SlotsNamedTail(slots: seq<Option<Expression>>)
    requires slots != [] && SlotsNamed(slots)
    ensures SlotsNamed(slots[1..])
  {
    forall j, i | 0 <= j < |slots[1..]| && slots[1..][j].Some? && 0 <= i < |GroupNames(slots[1..][j].value)|
      ensures GroupNames(slots[1..][j].value)[i] in GroupKeys
    {
      assert slots[1..][j] == slots[j + 1];
    }
  }

  /** Whatever the stream, a successful result holds only group keys with non-negative ints, version and edition. */
  lemma {:induction false} StandardFromShape(input: Input, slots: seq<Option<Expression>>, lineNo: nat, metrics: Bag)
    requires Groups(metrics) && SlotsNamed(slots)
    ensures StandardFrom(input, slots, lineNo, metrics).Ok? ==>
      Groups(StandardFrom(input, slots, lineNo, metrics).value) || Finished(StandardFrom(input, slots, lineNo, metrics).value)
    decreases |slots|
  {
    if slots != [] {
      var read := ReadString(input);
      SlotsNamedTail(slots);
      StandardFromStep(input, slots, lineNo, metrics);
      var next := Absorb(read.line, slots[0], metrics);
      if read.err != Some(EOF) && next.Some? {
        AbsorbGroups(read.line, slots, metrics);
        StandardFromShape(read.rest, slots[1..], lineNo + 1, next.value);
      }
    }
  }

  /**
   * A stream that ends (EOF) before every slot has a complete line returns
   * the groups read so far, without version or edition.
   */
  lemma {:induction false} StandardFromEarly(input: Input, slots: seq<Option<Expression>>, lineNo: nat, metrics: Bag)
    requires input.end == EOF && |CompleteLines(input)| < |slots|
    requires Groups(metrics) && SlotsNamed(slots)
    ensures StandardFrom(input, slots, lineNo, metrics).Ok? ==> Groups(StandardFrom(input, slots, lineNo, metrics).value)
    decreases |slots|
  {
    var read := ReadString(input);
    SlotsNamedTail(slots);
    LinesStep(input);
    StandardFromStep(input, slots, lineNo, metrics);
    var next := Absorb(read.line, slots[0], metrics);
    if read.err != Some(EOF) && next.Some? {
      AbsorbGroups(read.line, slots, metrics);
      StandardFromEarly(read.rest, slots[1..], lineNo + 1, next.value);
    }
  }

  /**
   * A stream with a complete line for every slot, or one that fails rather
   * than ending, returns version "" and edition "open source" on success.
   */
  lemma {:induction false} StandardFromFull(input: Input, slots: seq<Option<Expression>>, lineNo: nat, metrics: Bag)
    requires input.end.Failure? || |CompleteLines(input)| >= |slots|
    requires Groups(metrics) && SlotsNamed(slots)
    ensures StandardFrom(input, slots, lineNo, metrics).Ok? ==> Finished(StandardFrom(input, slots, lineNo, metrics).value)
    decreases |slots|
  {
    if slots != [] {
      var read := ReadString(input);
      SlotsNamedTail(slots);
      LinesStep(input);
      StandardFromStep(input, slots, lineNo, metrics);
      var next := Absorb(read.line, slots[0], metrics);
      if read.err != Some(EOF) && next.Some? {
        AbsorbGroups(read.line, slots, metrics);
        StandardFromFull(read.rest, slots[1..], lineNo + 1, next.value);
      }
    }
  }

  /** One line read: the stream's complete lines lose their first one, or there are none. */
  lemma LinesStep(input: Input)
    ensures ReadString(input).err.None? ==> |CompleteLines(input)| == 1 + |CompleteLines(ReadString(input).rest)|
    ensures ReadString(input).err.Some? ==> CompleteLines(input) == [] && ReadString(input).err == Some(input.end)
    ensures ReadString(input).rest.end == input.end
  {
  }

  /** One slot of `StandardFrom`. */
  lemma StandardFromStep(input: Input, slots: seq<Option<Expression>>, lineNo: nat, metrics: Bag)
    requires slots != []
    ensures var read := ReadString(input);
      read.err == Some(EOF) ==> StandardFrom(input, slots, lineNo, metrics) == Ok(metrics)
    ensures var read := ReadString(input);
      var next := Absorb(read.line, slots[0], metrics);
      read.err != Some(EOF) && next.None? ==> StandardFrom(input, slots, lineNo, metrics) == Err(LineError(lineNo))
    ensures var read := ReadString(input);
      var next := Absorb(read.line, slots[0], metrics);
      read.err != Some(EOF) && next.Some? ==>
        StandardFrom(input, slots, lineNo, metrics) == StandardFrom(read.rest, slots[1..], lineNo + 1, next.value)
  {
  }

  /** The status page's results: the group keys with non-negative ints, and version and edition exactly when every line was there. */
  lemma StandardMetricsShape(input: Input)
    requires StandardMetrics(input).Ok?
    ensures Groups(StandardMetrics(input).value) || Finished(StandardMetrics(input).value)
    ensures input.end == EOF && |CompleteLines(input)| < 4 ==> Groups(StandardMetrics(input).value)
    ensures input.end.Failure? || |CompleteLines(input)| >= 4 ==> Finished(StandardMetrics(input).value)
  {
    StatusSlotsNamed();
    StandardFromShape(input, StatusExpressions, 0, map[]);
    if input.end == EOF && |CompleteLines(input)| < 4 {
      StandardFromEarly(input, StatusExpressions, 0, map[]);
    } else {
      StandardFromFull(input, StatusExpressions, 0, map[]);
    }
  }

  /** A finished bag is not a bag of groups alone: version and edition are not group names. */
  lemma FinishedIsNotGroups(m: Bag)
    requires Finished(m)
    ensures !Groups(m)
  {
    assert "version" in m;
  }

  // ---------------------------------------------------------------------
  // getPlusMetrics
  // ---------------------------------------------------------------------

  /** The two objects of the Plus status document that are flattened, in order. */
  const Roots: seq<string> := ["connections", "requests"]

  /** `jsonMetrics[root].(map[string]interface{})`: the object under `root`, or none (empty) when it is not one. */
  function Child(json: Bag, root: string): (node: Bag)
    ensures root in json && json[root].StrMap? ==> node == json[root].fields
    ensures !(root in json && json[root].StrMap?) ==> node == map[]
  {
    if root in json && json[root].StrMap? then json[root].fields else map[]
  }

  /** Every child is a float64, so `value.(float64)` does not panic. */
  predicate AllFloats(node: Bag) {
    forall k | k in node :: node[k].Float64?
  }

  /** The JSON decoder produces finite numbers only. */
  predicate FiniteFloats(node: Bag) {
    forall k | k in node :: node[k].Float64? ==> node[k].f.Finite?
  }

  /** What the JSON decoder can produce under the two roots. */
  predicate Decoded(json: Bag) {
    forall i | 0 <= i < |Roots| :: FiniteFloats(Child(json, Roots[i]))
  }

  /** Go's `int(f)` for a float64 in range: the fraction dropped, rounding toward zero. */
  function Truncate(x: real): (i: int)
    ensures x >= 0.0 ==> i as real <= x < i as real + 1.0
    ensures x < 0.0 ==> i as real - 1.0 < x <= i as real
  {
    if x >= 0.0 then x.Floor else -((-x).Floor)
  }

  /** `fmt.Sprintf("%s.%s", root, key)`. */
  function Name(root: string, key: string): string {
    root + "." + key
  }

  /** The key can be read back from the name, so distinct keys under one root give distinct names. */
  lemma NameInverse(root: string)
    ensures forall key :: Name(root, key)[|root| + 1..] == key
  {
  }

  /** The children of one root as `root.key` entries, each converted with `int(value.(float64))`. */
  ghost function Prefixed(root: string, node: Bag): Bag
    requires AllFloats(node) && FiniteFloats(node)
  {
    NameInverse(root);
    map k | k in node :: Name(root, k) := Int(Truncate(node[k].f.r))
  }

  /** Each child is stored under its name, converted. */
  lemma PrefixedAt(root: string, node: Bag, k: string)
    requires AllFloats(node) && FiniteFloats(node) && k in node
    ensures Name(root, k) in Prefixed(root, node)
    ensures Prefixed(root, node)[Name(root, k)] == Int(Truncate(node[k].f.r))
  {
    NameInverse(root);
  }

  /** Every name stored under a root starts with the root's first letter. */
  lemma PrefixedFirst(root: string, node: Bag, n: string)
    requires AllFloats(node) && FiniteFloats(node) && root != []
    requires n in Prefixed(root, node)
    ensures n != [] && n[0] == root[0]
  {
    var k :| k in node && n == Name(root, k);
  }

  /** The flattened children of the first `n` roots. */
  ghost function FlatUpTo(json: Bag, n: nat): Bag
    requires n <= |Roots|
    requires forall i | 0 <= i < n :: AllFloats(Child(json, Roots[i])) && FiniteFloats(Child(json, Roots[i]))
  {
    if n == 0 then map[] else FlatUpTo(json, n - 1) + Prefixed(Roots[n - 1], Child(json, Roots[n - 1]))
  }

  /** Some child of a root is not a float64: the conversion panics. */
  ghost predicate Panics(json: Bag) {
    exists i | 0 <= i < |Roots| :: !AllFloats(Child(json, Roots[i]))
  }

  const ConversionPanic := "interface conversion: interface {} is not float64"

  /**
   * What `getPlusMetrics` returns: the decoder's error; a panic when a
   * child of a root is not a number; otherwise the flattened children,
   * "version" from "nginx_version" (nil when absent) and edition "plus".
   */
  ghost function PlusMetrics(json: Result<Bag, string>): Result<Bag, Fault>
    requires json.Ok? ==> Decoded(json.value)
  {
    if json.Err? then Err(Error(json.error))
    else if Panics(json.value) then Err(Panic(ConversionPanic))
    else Ok(FlatUpTo(json.value, |Roots|)["version" := Get(json.value, "nginx_version")]["edition" := Str("plus")])
  }

  /** `getPlusMetrics` after decoding: each root that is an object has its children flattened. */
  method GetPlusMetrics(json: Result<Bag, string>) returns (r: Result<Bag, Fault>)
    requires json.Ok? ==> Decoded(json.value)
    ensures r == PlusMetrics(json)
  {
    if json.Err? {
      return Err(Error(json.error));
    }
    var jsonMetrics := json.value;
    var metrics: Bag := map[];
    for i := 0 to |Roots|
      invariant forall j | 0 <= j < i :: AllFloats(Child(jsonMetrics, Roots[j])) && FiniteFloats(Child(jsonMetrics, Roots[j]))
      invariant metrics == FlatUpTo(jsonMetrics, i)
    {
      var flattened := FlattenRootOf(jsonMetrics, i, metrics);
      if flattened.None? {
        return Err(Panic(ConversionPanic));
      }
      metrics := flattened.value;
    }
    metrics := metrics["version" := Get(jsonMetrics, "nginx_version")];
    metrics := metrics["edition" := Str("plus")];
    return Ok(metrics);
  }

  /** One root: skipped when it is not an object, otherwise its children flattened (or a panic). */
  method FlattenRootOf(json: Bag, i: nat, metrics: Bag) returns (r: Option<Bag>)
    requires i < |Roots| && Decoded(json)
    requires forall j | 0 <= j < i :: AllFloats(Child(json, Roots[j])) && FiniteFloats(Child(json, Roots[j]))
    requires metrics == FlatUpTo(json, i)
    ensures r.None? ==> Panics(json)
    ensures r.Some? ==> AllFloats(Child(json, Roots[i])) && FiniteFloats(Child(json, Roots[i])) && r.value == FlatUpTo(json, i + 1)
  {
    var rootKey := Roots[i];
    assert FiniteFloats(Child(json, rootKey));
    if !(rootKey in json && json[rootKey].StrMap?) {
      assert Prefixed(rootKey, map[]) == map[];
      assert metrics + map[] == metrics;
      return Some(metrics);
    }
    r := FlattenRoot(metrics, rootKey, json[rootKey].fields);
    if r.None? {
      assert !AllFloats(Child(json, Roots[i]));
    }
  }

  /** The loop over one root's children, in Go's map order: each stored as `root.key`, or a panic. */
  method FlattenRoot(metrics: Bag, root: string, node: Bag) returns (r: Option<Bag>)
    requires FiniteFloats(node)
    ensures r.None? <==> !AllFloats(node)
    ensures r.Some? ==> AllFloats(node) && r.value == metrics + Prefixed(root, node)
  {
    var m := metrics;
    var remaining := node.Keys;
    ghost var done: Bag := map[];
    assert Prefixed(root, done) == map[];
    while remaining != {}
      invariant Visited(node, done, remaining)
      invariant AllFloats(done) && FiniteFloats(done)
      invariant m == metrics + Prefixed(root, done)
      decreases remaining
    {
      var key :| key in remaining;
      var value := node[key];
      if !value.Float64? {
        return None;
      }
      VisitedStep(node, done, remaining, key);
      m, done := FlattenChild(metrics, root, m, done, key, value);
      remaining := remaining - {key};
    }
    VisitedAll(node, done);
    return Some(m);
  }

  /** The children visited so far: those of `node` outside `remaining`, unchanged. */
  ghost predicate Visited(node: Bag, done: Bag, remaining: set<string>) {
    && remaining <= node.Keys
    && (forall k :: k in done <==> k in node && k !in remaining)
    && (forall k | k in done :: done[k] == node[k])
  }

  lemma VisitedStep(node: Bag, done: Bag, remaining: set<string>, key: string)
    requires Visited(node, done, remaining) && key in remaining
    ensures key !in done
    ensures Visited(node, done[key := node[key]], remaining - {key})
  {
  }

  lemma VisitedAll(node: Bag, done: Bag)
    requires Visited(node, done, {})
    ensures done == node
  {
  }

  /** One child stored, and recorded as done. */
  method FlattenChild(metrics: Bag, root: string, m: Bag, ghost done: Bag, key: string, value: Value)
    returns (m': Bag, ghost done': Bag)
    requires AllFloats(done) && FiniteFloats(done) && key !in done
    requires value.Float64? && value.f.Finite?
    requires m == metrics + Prefixed(root, done)
    ensures done' == done[key := value]
    ensures AllFloats(done') && FiniteFloats(done')
    ensures m' == metrics + Prefixed(root, done')
  {
    PrefixedStep(metrics, root, done, key, value);
    m' := m[Name(root, key) := Int(Truncate(value.f.r))];
    done' := done[key := value];
  }

  /** One more child flattened. */
  lemma PrefixedStep(metrics: Bag, root: string, done: Bag, key: string, value: Value)
    requires AllFloats(done) && FiniteFloats(done) && key !in done
    requires value.Float64? && value.f.Finite?
    ensures AllFloats(done[key := value]) && FiniteFloats(done[key := value])
    ensures metrics + Prefixed(root, done[key := value]) == (metrics + Prefixed(root, done))[Name(root, key) := Int(Truncate(value.f.r))]
  {
    PrefixedInsert(root, done, key, value);
    UnionUpdate(metrics, Prefixed(root, done), Name(root, key), Int(Truncate(value.f.r)));
  }

  lemma PrefixedInsert(root: string, done: Bag, key: string, value: Value)
    requires AllFloats(done) && FiniteFloats(done) && key !in done
    requires value.Float64? && value.f.Finite?
    ensures AllFloats(done[key := value]) && FiniteFloats(done[key := value])
    ensures Prefixed(root, done[key := value]) == Prefixed(root, done)[Name(root, key) := Int(Truncate(value.f.r))]
  {
    var after := done[key := value];
    var a := Prefixed(root, after);
    var b := Prefixed(root, done)[Name(root, key) := Int(Truncate(value.f.r))];
    forall n | n in a
      ensures n in b && a[n] == b[n]
    {
      PrefixedInsertOld(root, done, key, value, n);
    }
    forall n | n in b
      ensures n in a
    {
      PrefixedInsertNew(root, done, key, value, n);
    }
    assert a == b;
  }

  lemma PrefixedInsertOld(root: string, done: Bag, key: string, value: Value, n: string)
    requires AllFloats(done) && FiniteFloats(done) && key !in done
    requires value.Float64? && value.f.Finite?
    requires AllFloats(done[key := value]) && FiniteFloats(done[key := value])
    requires n in Prefixed(root, done[key := value])
    ensures n in Prefixed(root, done)[Name(root, key) := Int(Truncate(value.f.r))]
    ensures Prefixed(root, done[key := value])[n] == Prefixed(root, done)[Name(root, key) := Int(Truncate(value.f.r))][n]
  {
    var after := done[key := value];
    var k :| k in after && n == Name(root, k);
    PrefixedAt(root, after, k);
    NameInverse(root);
    if k != key {
      assert n != Name(root, key);
      PrefixedAt(root, done, k);
    } else {
      assert after[k] == value;
    }
  }

  lemma PrefixedInsertNew(root: string, done: Bag, key: string, value: Value, n: string)
    requires AllFloats(done) && FiniteFloats(done) && key !in done
    requires value.Float64? && value.f.Finite?
    requires AllFloats(done[key := value]) && FiniteFloats(done[key := value])
    requires n in Prefixed(root, done)[Name(root, key) := Int(Truncate(value.f.r))]
    ensures n in Prefixed(root, done[key := value])
  {
    var after := done[key := value];
    if n != Name(root, key) {
      var k :| k in done && n == Name(root, k);
      PrefixedAt(root, after, k);
    } else {
      PrefixedAt(root, after, key);
    }
  }

  lemma UnionUpdate(m: Bag, p: Bag, n: string, v: Value)
    ensures m + p[n := v] == (m + p)[n := v]
  {
  }

  /** Names under different roots never meet, nor meet "version" or "edition". */
  lemma RootNamesApart(n: string)
    requires n != []
    ensures n[0] == 'c' ==> n != "version" && n != "edition"
    ensures n[0] == 'r' ==> n != "version" && n != "edition"
  {
  }

  /** The flattened roots of a document that does not panic. */
  lemma FlatRoots(json: Bag)
    requires Decoded(json) && !Panics(json)
    ensures forall i | 0 <= i < |Roots| :: AllFloats(Child(json, Roots[i])) && FiniteFloats(Child(json, Roots[i]))
    ensures AllFloats(Child(json, "connections")) && FiniteFloats(Child(json, "connections"))
    ensures AllFloats(Child(json, "requests")) && FiniteFloats(Child(json, "requests"))
    ensures FlatUpTo(json, |Roots|) == Prefixed("connections", Child(json, "connections")) + Prefixed("requests", Child(json, "requests"))
  {
    assert Roots[0] == "connections" && Roots[1] == "requests";
    assert forall i | 0 <= i < |Roots| :: AllFloats(Child(json, Roots[i]));
    assert FlatUpTo(json, 1) == map[] + Prefixed("connections", Child(json, "connections"));
  }

  /** Each child of each root is stored as `root.key` holding its value converted to an int. */
  lemma PlusMetricsFlattened(json: Result<Bag, string>, i: nat, k: string)
    requires json.Ok? ==> Decoded(json.value)
    requires PlusMetrics(json).Ok? && i < |Roots| && k in Child(json.value, Roots[i])
    ensures Name(Roots[i], k) in PlusMetrics(json).value
    ensures Child(json.value, Roots[i])[k].Float64?
    ensures PlusMetrics(json).value[Name(Roots[i], k)] == Int(Truncate(Child(json.value, Roots[i])[k].f.r))
  {
    var j := json.value;
    FlatRoots(j);
    var c := Prefixed("connections", Child(j, "connections"));
    var q := Prefixed("requests", Child(j, "requests"));
    var n := Name(Roots[i], k);
    PrefixedAt(Roots[i], Child(j, Roots[i]), k);
    assert n[0] == Roots[i][0];
    RootNamesApart(n);
    if i == 0 && n in q {
      PrefixedFirst("requests", Child(j, "requests"), n);
    }
    assert (c + q)[n] == Int(Truncate(Child(j, Roots[i])[k].f.r));
  }

  /** Nothing else is stored: a name is "version", "edition", or a child of a root under `root.key`. */
  lemma PlusMetricsKeys(json: Result<Bag, string>, name: string)
    requires json.Ok? ==> Decoded(json.value)
    requires PlusMetrics(json).Ok?
    ensures name in PlusMetrics(json).value <==>
      || name == "version" || name == "edition"
      || (exists k | k in Child(json.value, "connections") :: name == Name("connections", k))
      || (exists k | k in Child(json.value, "requests") :: name == Name("requests", k))
  {
    FlatRoots(json.value);
  }

  /** Version and edition of a Plus document. */
  lemma PlusMetricsVersion(json: Result<Bag, string>)
    requires json.Ok? ==> Decoded(json.value)
    requires PlusMetrics(json).Ok?
    ensures PlusMetrics(json).value["version"] == Get(json.value, "nginx_version")
    ensures PlusMetrics(json).value["edition"] == Str("plus")
  {
  }

  // ---------------------------------------------------------------------
  // populateMetrics and getMetricsData
  // ---------------------------------------------------------------------

  /** `populateMetrics` with the given table: int functions accepted; the result is always nil. */
  method PopulateMetrics(sample: MetricSet, metrics: Bag, definition: Table, write: Write) returns (err: Option<string>)
    modifies sample
    ensures err == None
    ensures sample.metrics == Populated(old(sample.metrics), metrics, definition, IntFuncs, write)
  {
    Populate(sample, metrics, definition, IntFuncs, write);
    return None;
  }

  /** The content type that selects the Plus table, compared exactly. */
  const JsonContentType := "application/json"

  const NilMapPanic := "assignment to entry in nil map"

  /**
   * The raw bag and table `getMetricsData` populates from: the Plus
   * document for exactly "application/json", otherwise the status page
   * with "version" taken from the Server header, every "nginx/" removed.
   * A status page that fails leaves a nil map, and the version write into
   * it panics.
   */
  ghost function RawMetrics(contentType: string, server: string, body: Input, json: Result<Bag, string>): Result<(Bag, Table), Fault>
    requires json.Ok? ==> Decoded(json.value)
  {
    if contentType == JsonContentType then
      match PlusMetrics(json)
      case Err(f) => Err(f)
      case Ok(bag) => Ok((bag, PlusDefinition))
    else
      match StandardMetrics(body)
      case Err(_) => Err(Panic(NilMapPanic))
      case Ok(bag) => Ok((bag["version" := Str(RemoveAll(server, "nginx/"))], StandardDefinition))
  }

  /**
   * `getMetricsData` once the request has been made: `fetchError` is the
   * HTTP client's error, `contentType` and `server` the response headers,
   * `body` the body as the line reader sees it and `json` what the JSON
   * decoder makes of it.
   */
  method GetMetricsData(sample: MetricSet, fetchError: Option<string>, contentType: string, server: string,
                        body: Input, json: Result<Bag, string>, write: Write)
    returns (r: Option<Fault>)
    requires json.Ok? ==> Decoded(json.value)
    modifies sample
    ensures fetchError.Some? ==> r == Some(Error(fetchError.value)) && sample.metrics == old(sample.metrics)
    ensures fetchError.None? && RawMetrics(contentType, server, body, json).Err? ==>
      r == Some(RawMetrics(contentType, server, body, json).error) && sample.metrics == old(sample.metrics)
    ensures fetchError.None? && RawMetrics(contentType, server, body, json).Ok? ==>
      r == None &&
      sample.metrics == Populated(old(sample.metrics), RawMetrics(contentType, server, body, json).value.0,
                                  RawMetrics(contentType, server, body, json).value.1, IntFuncs, write)
  {
    if fetchError.Some? {
      return Some(Error(fetchError.value));
    }
    var rawMetrics: Bag;
    var definition: Table;
    if contentType == JsonContentType {
      definition := PlusDefinition;
      var plus := GetPlusMetrics(json);
      if plus.Err? {
        return Some(plus.error);
      }
      rawMetrics := plus.value;
    } else {
      definition := StandardDefinition;
      var standard := GetStandardMetrics(body);
      if standard.Err? {
        return Some(Panic(NilMapPanic));
      }
      rawMetrics := standard.value["version" := Str(RemoveAll(server, "nginx/"))];
    }
    var err := PopulateMetrics(sample, rawMetrics, definition, write);
    return None;
  }

  /** The Server header "nginx/1.13.3" gives version "1.13.3". */
  lemma ServerVersionExample()
    ensures RemoveAll("nginx/1.13.3", "nginx/") == "1.13.3"
  {
    assert HasPrefix("nginx/1.13.3", "nginx/");
    assert "nginx/1.13.3"[6..] == "1.13.3";
    assert !OccursAt("1.13.3", "nginx/", 0) by {
      assert "1.13.3"[0..6][0] != "nginx/"[0];
    }
    RemoveAllAbsent("1.13.3", "nginx/");
  }
}

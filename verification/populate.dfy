/**
 * The definition-table populator that the Apache, NGINX and Cassandra
 * integrations (`populateMetrics`) and MySQL (`populatePartialMetrics`)
 * each carry a copy of. A table maps an output metric name to a source and
 * a kind. For every entry, the raw value is taken from the raw bag (a
 * string source) or computed (a function source). That value is written
 * into the sample. An entry with a source of any other type, with no raw
 * value, or whose write fails is skipped, and the loop goes on.
 */
module Populator {
  import opened Wrappers
  import opened Values
  import opened Sdk

  /** The first element of a table entry: where the raw value comes from. */
  datatype Source =
    | Direct(key: string)                 // a string: the key to look up in the raw bag
    | FloatFunc(f: Bag -> (Float, bool))  // a func(map[string]interface{}) (float64, bool)
    | IntFunc(g: Bag -> (int, bool))      // a func(map[string]interface{}) (int, bool)
    | Other                               // a value of any other type

  /** One table entry: the raw source and the metric kind. */
  datatype Definition = Definition(source: Source, kind: SourceType)

  /** A definition table: output metric name to its definition (a Go map literal, so names are unique). */
  type Table = map<string, Definition>

  /** Which function type a copy's type switch names: NGINX's takes int functions, the others float64 ones. */
  datatype FuncKind = FloatFuncs | IntFuncs

  /**
   * The type switch of the populator: a string source is looked up, a
   * function of the accepted type is called and its found flag kept, and
   * anything else (including a function of the other type) yields nothing.
   */
  function Resolve(bag: Bag, source: Source, accepted: FuncKind): (r: Option<Value>)
    ensures source.Direct? ==> (r.Some? <==> source.key in bag)
    ensures source.Direct? && r.Some? ==> r.value == bag[source.key]
    ensures source.FloatFunc? ==> (r.Some? <==> accepted == FloatFuncs && source.f(bag).1)
    ensures source.FloatFunc? && r.Some? ==> r.value == Float64(source.f(bag).0)
    ensures source.IntFunc? ==> (r.Some? <==> accepted == IntFuncs && source.g(bag).1)
    ensures source.IntFunc? && r.Some? ==> r.value == Int(source.g(bag).0)
    ensures source.Other? ==> r.None?
  {
    match source
    case Direct(key) => if key in bag then Some(bag[key]) else None
    case FloatFunc(f) =>
      if accepted == FloatFuncs && f(bag).1 then Some(Float64(f(bag).0)) else None
    case IntFunc(g) =>
      if accepted == IntFuncs && g(bag).1 then Some(Int(g(bag).0)) else None
    case Other => None
  }

  /** What one entry leaves in the sample under its name: the written value, or None when it is skipped. */
  function Outcome(bag: Bag, name: string, def: Definition, accepted: FuncKind, write: Write): Option<Value> {
    match Resolve(bag, def.source, accepted)
    case None => None
    case Some(raw) => write(name, raw, def.kind)
  }

  /** What a name holds after populating `table` into `metrics`: its entry's outcome, else what it had. */
  function Final(metrics: map<string, Value>, bag: Bag, table: Table, accepted: FuncKind, write: Write, k: string): Option<Value> {
    if k in table && Outcome(bag, k, table[k], accepted, write).Some? then Outcome(bag, k, table[k], accepted, write)
    else if k in metrics then Some(metrics[k])
    else None
  }

  /**
   * The sample's metrics after populating `table` into `metrics`: each
   * entry with an outcome holds it; every other name keeps what it had.
   */
  ghost function Populated(metrics: map<string, Value>, bag: Bag, table: Table, accepted: FuncKind, write: Write): map<string, Value> {
    map k | k in metrics.Keys + table.Keys && Final(metrics, bag, table, accepted, write, k).Some? ::
      Final(metrics, bag, table, accepted, write, k).value
  }

  /** The sample after one entry: its outcome, if any, written over what was there. */
  function Step(metrics: map<string, Value>, bag: Bag, name: string, def: Definition, accepted: FuncKind, write: Write): (r: map<string, Value>)
    ensures Outcome(bag, name, def, accepted, write).None? ==> r == metrics
    ensures Outcome(bag, name, def, accepted, write).Some? ==> r == metrics[name := Outcome(bag, name, def, accepted, write).value]
  {
    match Outcome(bag, name, def, accepted, write)
    case None => metrics
    case Some(v) => metrics[name := v]
  }

  /** One more entry handled: its outcome, if any, is written over what was there. */
  lemma PopulatedStep(metrics: map<string, Value>, bag: Bag, table: Table, name: string, def: Definition, accepted: FuncKind, write: Write)
    requires name !in table
    ensures Populated(metrics, bag, table[name := def], accepted, write)
         == Step(Populated(metrics, bag, table, accepted, write), bag, name, def, accepted, write)
  {
    var before := Populated(metrics, bag, table, accepted, write);
    var after := Populated(metrics, bag, table[name := def], accepted, write);
    var expected := Step(before, bag, name, def, accepted, write);
    forall k
      ensures k in after <==> k in expected
      ensures k in after ==> after[k] == expected[k]
    {
      if k != name {
        assert Final(metrics, bag, table[name := def], accepted, write, k) == Final(metrics, bag, table, accepted, write, k);
      }
    }
    assert after == expected;
  }

  /**
   * The populator loop: every entry of the table, in whatever order Go's
   * map iteration picks, resolved and written into the sample.
   */
  method Populate(sample: MetricSet, bag: Bag, table: Table, accepted: FuncKind, write: Write)
    modifies sample
    ensures sample.metrics == Populated(old(sample.metrics), bag, table, accepted, write)
  {
    ghost var start := sample.metrics;
    ghost var done: Table := map[];
    var remaining := table.Keys;
    EmptyTable(start, bag, accepted, write);
    while remaining != {}
      invariant remaining <= table.Keys && done.Keys == table.Keys - remaining
      invariant forall k | k in done :: done[k] == table[k]
      invariant sample.metrics == Populated(start, bag, done, accepted, write)
      decreases remaining
    {
      var name :| name in remaining;
      PopulatedStep(start, bag, done, name, table[name], accepted, write);
      PopulateEntry(sample, bag, name, table[name], accepted, write);
      remaining := remaining - {name};
      done := done[name := table[name]];
    }
    assert done == table;
  }

  /** One iteration of the loop: the type switch, then the write when there is a raw value. */
  method PopulateEntry(sample: MetricSet, bag: Bag, name: string, def: Definition, accepted: FuncKind, write: Write)
    modifies sample
    ensures sample.metrics == Step(old(sample.metrics), bag, name, def, accepted, write)
  {
    var raw := Resolve(bag, def.source, accepted);
    if raw.Some? {
      var failed := sample.AddMetric(name, raw.value, def.kind, write);
    }
  }

  /** With no entries, nothing changes. */
  lemma EmptyTable(metrics: map<string, Value>, bag: Bag, accepted: FuncKind, write: Write)
    ensures Populated(metrics, bag, map[], accepted, write) == metrics
  {
  }

  /**
   * The same entries handled one after another in the order `names` lists
   * them: a reference for any fixed iteration order.
   */
  function PopulateInOrder(metrics: map<string, Value>, bag: Bag, table: Table, names: seq<string>, accepted: FuncKind, write: Write): map<string, Value>
    requires forall i | 0 <= i < |names| :: names[i] in table
  {
    if names == [] then metrics
    else
      var name := names[|names| - 1];
      Step(PopulateInOrder(metrics, bag, table, names[..|names| - 1], accepted, write), bag, name, table[name], accepted, write)
  }

  /** The entries of `table` named in `names`. */
  ghost function Entries(table: Table, names: seq<string>): (t: Table)
    requires forall i | 0 <= i < |names| :: names[i] in table
    ensures forall k :: k in t <==> k in names
    ensures forall k | k in t :: t[k] == table[k]
  {
    if names == [] then map[]
    else
      var name := names[|names| - 1];
      var front := names[..|names| - 1];
      assert names == front + [name];
      Entries(table, front)[name := table[name]]
  }

  /** Handling the listed entries one by one, each name once, is populating the entries they name. */
  lemma {:induction false} InOrderIsPopulated(metrics: map<string, Value>, bag: Bag, table: Table, names: seq<string>, accepted: FuncKind, write: Write)
    requires forall i | 0 <= i < |names| :: names[i] in table
    requires forall i, j | 0 <= i < j < |names| :: names[i] != names[j]
    ensures PopulateInOrder(metrics, bag, table, names, accepted, write) == Populated(metrics, bag, Entries(table, names), accepted, write)
  {
    if names == [] {
      EmptyTable(metrics, bag, accepted, write);
    } else {
      var front := names[..|names| - 1];
      var name := names[|names| - 1];
      InOrderIsPopulated(metrics, bag, table, front, accepted, write);
      assert name !in front;
      PopulatedStep(metrics, bag, Entries(table, front), name, table[name], accepted, write);
    }
  }

  /**
   * The order does not matter: handling the entries one by one in any
   * order that lists each name of the table once gives `Populated`.
   */
  lemma PopulateInAnyOrder(metrics: map<string, Value>, bag: Bag, table: Table, names: seq<string>, accepted: FuncKind, write: Write)
    requires forall i | 0 <= i < |names| :: names[i] in table
    requires forall i, j | 0 <= i < j < |names| :: names[i] != names[j]
    requires forall k | k in table :: k in names
    ensures PopulateInOrder(metrics, bag, table, names, accepted, write) == Populated(metrics, bag, table, accepted, write)
  {
    InOrderIsPopulated(metrics, bag, table, names, accepted, write);
    assert Entries(table, names) == table;
  }

  /** An entry with an outcome holds it afterwards, whatever was in the sample before. */
  lemma PopulatedWritten(metrics: map<string, Value>, bag: Bag, table: Table, accepted: FuncKind, write: Write, name: string)
    requires name in table && Outcome(bag, name, table[name], accepted, write).Some?
    ensures name in Populated(metrics, bag, table, accepted, write)
    ensures Populated(metrics, bag, table, accepted, write)[name] == Outcome(bag, name, table[name], accepted, write).value
  {
  }

  /**
   * A skipped entry (a source of another type, a missing raw value, a
   * function reporting not found, or a failed write) and every name outside
   * the table leave the sample's value as it was, present or absent.
   */
  lemma PopulatedKept(metrics: map<string, Value>, bag: Bag, table: Table, accepted: FuncKind, write: Write, name: string)
    requires name !in table || Outcome(bag, name, table[name], accepted, write).None?
    ensures name in Populated(metrics, bag, table, accepted, write) <==> name in metrics
    ensures name in metrics ==> Populated(metrics, bag, table, accepted, write)[name] == metrics[name]
  {
  }
}

/**
 * The MySQL integration's parsing side (`integrations/mysql/src/metrics-parse.go`):
 * the results of the three queries become the raw inventory and raw metrics,
 * the raw inventory becomes inventory items, and the selected definition
 * tables populate the sample. The file holds an unresolved merge conflict;
 * both sides of `populateInventory` are modelled, the upstream one named
 * `...Upstream`. The query results are inputs: a row map, or the driver's
 * error.
 */
module MysqlParse {
  import opened Wrappers
  import opened Values
  import opened Sdk
  import opened Populator
  import opened MysqlMetrics

  /** The inventory variables that `getRawData` copies into the raw metrics. */
  const CopiedKeys: set<string> := {"key_cache_block_size", "key_buffer_size", "version_comment", "version"}

  /**
   * `getRawData`: the variables query, then the status query, each error
   * returned as it is; the replica query decides the node type ("master"
   * for no rows, "slave" otherwise, unset when the query fails); and the
   * four copied variables overwrite the status values, nil when missing.
   */
  method GetRawData(variables: Result<Bag, string>, status: Result<Bag, string>, replica: Result<Bag, string>)
    returns (r: Result<(Bag, Bag), string>)
    ensures variables.Err? ==> r == Err(variables.error)
    ensures variables.Ok? && status.Err? ==> r == Err(status.error)
    ensures variables.Ok? && status.Ok? ==> r.Ok? && r.value.0 == variables.value
    ensures r.Ok? ==> r.value.1.Keys == status.value.Keys + CopiedKeys + (if replica.Ok? then {"node_type"} else {})
    ensures r.Ok? ==> forall k | k in CopiedKeys :: r.value.1[k] == Get(variables.value, k)
    ensures r.Ok? && replica.Ok? ==> r.value.1["node_type"] == Str(if |replica.value| == 0 then "master" else "slave")
    ensures r.Ok? ==> forall k | k in status.value && k !in CopiedKeys && (replica.Err? || k != "node_type") ::
      r.value.1[k] == status.value[k]
  {
    if variables.Err? {
      return Err(variables.error);
    }
    var inventory := variables.value;
    if status.Err? {
      return Err(status.error);
    }
    var metrics := SetNodeType(status.value, replica);
    NodeTypeNotCopied();
    metrics := CopyVariables(metrics, inventory);
    return Ok((inventory, metrics));
  }

  /** The replica query's outcome: "master" for no rows, "slave" otherwise, unset (only a warning) when it fails. */
  method SetNodeType(status: Bag, replica: Result<Bag, string>) returns (metrics: Bag)
    ensures metrics.Keys == status.Keys + (if replica.Ok? then {"node_type"} else {})
    ensures replica.Ok? ==> metrics["node_type"] == Str(if |replica.value| == 0 then "master" else "slave")
    ensures forall k | k in status && (replica.Err? || k != "node_type") :: metrics[k] == status[k]
  {
    metrics := status;
    if replica.Err? {
      // only a warning is logged
    } else if |replica.value| == 0 {
      metrics := metrics["node_type" := Str("master")];
    } else {
      metrics := metrics["node_type" := Str("slave")];
    }
  }

  lemma NodeTypeNotCopied()
    ensures "node_type" !in CopiedKeys
  {
  }

  /** The four assignments at the end of `getRawData`: each copied variable, nil when missing. */
  method CopyVariables(status: Bag, inventory: Bag) returns (metrics: Bag)
    ensures metrics.Keys == status.Keys + CopiedKeys
    ensures forall k | k in CopiedKeys :: metrics[k] == Get(inventory, k)
    ensures forall k | k in status && k !in CopiedKeys :: metrics[k] == status[k]
  {
    metrics := status;
    metrics := metrics["key_cache_block_size" := Get(inventory, "key_cache_block_size")];
    metrics := metrics["key_buffer_size" := Get(inventory, "key_buffer_size")];
    metrics := metrics["version_comment" := Get(inventory, "version_comment")];
    metrics := metrics["version" := Get(inventory, "version")];
  }

  /** The inventory after HEAD `populateInventory`: every raw variable as the item {"value": v}. */
  ghost function WithValueItems(items: map<string, Item>, raw: Bag): map<string, Item> {
    map k | k in items.Keys + raw.Keys :: if k in raw then map["value" := raw[k]] else items[k]
  }

  /** The inventory after upstream `populateInventory`: the "value" field of every raw variable's item set. */
  ghost function WithValueFields(items: map<string, Item>, raw: Bag): map<string, Item> {
    map k | k in items.Keys + raw.Keys ::
      if k in raw then (if k in items then items[k] else map[])["value" := raw[k]] else items[k]
  }

  /**
   * HEAD `populateInventory`: every raw variable becomes the item
   * {"value": v}, replacing any item under that name; other items stay.
   */
  method PopulateInventory(inventory: Inventory, raw: Bag)
    modifies inventory
    ensures inventory.items == WithValueItems(old(inventory.items), raw)
  {
    ghost var start := inventory.items;
    var remaining := raw.Keys;
    while remaining != {}
      invariant remaining <= raw.Keys
      invariant forall k :: k in inventory.items <==> k in start || (k in raw && k !in remaining)
      invariant forall k | k in inventory.items ::
        inventory.items[k] == if k in raw && k !in remaining then map["value" := raw[k]] else start[k]
      decreases remaining
    {
      var name :| name in remaining;
      inventory.items := inventory.items[name := map["value" := raw[name]]];
      remaining := remaining - {name};
    }
    ValueItemsAll(inventory.items, start, raw);
  }

  /** A map holding {"value": v} for every raw variable and the old item under every other name is `WithValueItems`. */
  lemma ValueItemsAll(items: map<string, Item>, start: map<string, Item>, raw: Bag)
    requires forall k :: k in items <==> k in start || k in raw
    requires forall k | k in items :: items[k] == if k in raw then map["value" := raw[k]] else start[k]
    ensures items == WithValueItems(start, raw)
  {
  }

  /**
   * Every raw variable's item is exactly {"value": v}, whatever was there;
   * items of other names are unchanged, and no other item appears.
   */
  lemma WithValueItemsContents(items: map<string, Item>, raw: Bag, k: string)
    ensures k in WithValueItems(items, raw) <==> k in items || k in raw
    ensures k in raw ==> WithValueItems(items, raw)[k] == map["value" := raw[k]]
    ensures k in items && k !in raw ==> WithValueItems(items, raw)[k] == items[k]
  {
  }

  /**
   * Upstream `populateInventory`: `SetItem(name, "value", v)` for every raw
   * variable, so an existing item keeps its other fields.
   */
  method PopulateInventoryUpstream(inventory: Inventory, raw: Bag)
    modifies inventory
    ensures inventory.items == WithValueFields(old(inventory.items), raw)
  {
    ghost var start := inventory.items;
    var remaining := raw.Keys;
    while remaining != {}
      invariant remaining <= raw.Keys
      invariant forall k :: k in inventory.items <==> k in start || (k in raw && k !in remaining)
      invariant forall k | k in inventory.items ::
        inventory.items[k] == if k in raw && k !in remaining then (if k in start then start[k] else map[])["value" := raw[k]] else start[k]
      decreases remaining
    {
      var name :| name in remaining;
      assert name in inventory.items ==> inventory.items[name] == start[name];
      SetValue(inventory, name, raw[name]);
      remaining := remaining - {name};
    }
    ValueFieldsAll(inventory.items, start, raw);
  }

  /** `SetItem(name, "value", v)`: the item under `name`, or a new empty one, with its "value" field set. */
  method SetValue(inventory: Inventory, name: string, v: Value)
    modifies inventory
    ensures inventory.items == old(inventory.items)[name := (if name in old(inventory.items) then old(inventory.items)[name] else map[])["value" := v]]
  {
    inventory.SetItem(name, "value", v);
  }

  /** A map holding every raw variable's old item with its "value" field set, and the old item elsewhere, is `WithValueFields`. */
  lemma ValueFieldsAll(items: map<string, Item>, start: map<string, Item>, raw: Bag)
    requires forall k :: k in items <==> k in start || k in raw
    requires forall k | k in items :: items[k] == if k in raw then (if k in start then start[k] else map[])["value" := raw[k]] else start[k]
    ensures items == WithValueFields(start, raw)
  {
  }

  /**
   * Every raw variable's item holds the raw value under "value" and keeps
   * its other fields; items of other names are unchanged, and no other
   * item appears.
   */
  lemma WithValueFieldsContents(items: map<string, Item>, raw: Bag, k: string)
    ensures k in WithValueFields(items, raw) <==> k in items || k in raw
    ensures k in raw ==> "value" in WithValueFields(items, raw)[k] && WithValueFields(items, raw)[k]["value"] == raw[k]
    ensures k in raw && k in items ==> forall f | f in items[k] && f != "value" ::
      f in WithValueFields(items, raw)[k] && WithValueFields(items, raw)[k][f] == items[k][f]
    ensures k in raw ==> WithValueFields(items, raw)[k].Keys == (if k in items then items[k].Keys else {}) + {"value"}
    ensures k in items && k !in raw ==> WithValueFields(items, raw)[k] == items[k]
  {
  }

  /** `populatePartialMetrics`: one table populated, float64 functions accepted. */
  method PopulatePartialMetrics(sample: MetricSet, metrics: Bag, table: Table, write: Write)
    modifies sample
    ensures sample.metrics == Populated(old(sample.metrics), metrics, table, FloatFuncs, write)
  {
    Populate(sample, metrics, table, FloatFuncs, write);
  }

  /** A table populated only when its flag is set. */
  ghost function PopulateIf(flag: bool, metrics: map<string, Value>, bag: Bag, table: Table, write: Write): map<string, Value> {
    if flag then Populated(metrics, bag, table, FloatFuncs, write) else metrics
  }

  /** The tables populated one after another. */
  ghost function PopulateTables(metrics: map<string, Value>, bag: Bag, tables: seq<Table>, write: Write): map<string, Value>
    decreases |tables|
  {
    if tables == [] then metrics
    else PopulateTables(Populated(metrics, bag, tables[0], FloatFuncs, write), bag, tables[1..], write)
  }

  /**
   * `populateMetrics`: the default table always, then the extended, InnoDB
   * and MyISAM tables, each only under its flag, in that order.
   */
  method PopulateMetrics(sample: MetricSet, metrics: Bag, extended: bool, innodb: bool, myisam: bool, write: Write)
    modifies sample
    ensures sample.metrics == PopulateTables(old(sample.metrics), metrics,
      SelectedTables(DefaultMetrics, ExtendedMetrics, InnodbMetrics, MyisamMetrics, extended, innodb, myisam), write)
  {
    PopulateFlagged(sample, metrics, DefaultMetrics, ExtendedMetrics, InnodbMetrics, MyisamMetrics, extended, innodb, myisam, write);
  }

  /** The table, when its flag is set. */
  function Flagged(flag: bool, table: Table): (ts: seq<Table>)
    ensures |ts| == (if flag then 1 else 0)
    ensures flag ==> ts[0] == table
  {
    if flag then [table] else []
  }

  /** The tables `populateMetrics` applies, in order: the default one, then each flagged one. */
  function SelectedTables(default: Table, extended: Table, innodb: Table, myisam: Table, e: bool, i: bool, m: bool): seq<Table> {
    [default] + (Flagged(e, extended) + (Flagged(i, innodb) + Flagged(m, myisam)))
  }

  /** The body of `populateMetrics`, over the four tables it names. */
  method PopulateFlagged(sample: MetricSet, metrics: Bag, default: Table, extended: Table, innodb: Table, myisam: Table,
                         e: bool, i: bool, m: bool, write: Write)
    modifies sample
    ensures sample.metrics == PopulateTables(old(sample.metrics), metrics, SelectedTables(default, extended, innodb, myisam, e, i, m), write)
  {
    var rest1 := Flagged(e, extended) + (Flagged(i, innodb) + Flagged(m, myisam));
    var rest2 := Flagged(i, innodb) + Flagged(m, myisam);
    var rest3 := Flagged(m, myisam) + [];
    assert SelectedTables(default, extended, innodb, myisam, e, i, m)[1..] == rest1;
    PopulatePartialMetrics(sample, metrics, default, write);
    FlaggedStep(sample.metrics, metrics, e, extended, rest2, write);
    if e {
      PopulatePartialMetrics(sample, metrics, extended, write);
    }
    FlaggedStep(sample.metrics, metrics, i, innodb, Flagged(m, myisam), write);
    if i {
      PopulatePartialMetrics(sample, metrics, innodb, write);
    }
    FlaggedStep(sample.metrics, metrics, m, myisam, [], write);
    assert Flagged(m, myisam) == rest3;
    if m {
      PopulatePartialMetrics(sample, metrics, myisam, write);
    }
  }

  /** A flagged table in front of the others: populated first when its flag is set, skipped otherwise. */
  lemma FlaggedStep(metrics: map<string, Value>, bag: Bag, flag: bool, table: Table, rest: seq<Table>, write: Write)
    ensures PopulateTables(metrics, bag, Flagged(flag, table) + rest, write)
         == PopulateTables(PopulateIf(flag, metrics, bag, table, write), bag, rest, write)
  {
    if flag {
      assert (Flagged(flag, table) + rest)[1..] == rest;
    } else {
      assert Flagged(flag, table) + rest == rest;
    }
  }

  /** A name that no applied table defines keeps what the sample had, present or absent. */
  lemma {:induction false} PopulateTablesKept(metrics: map<string, Value>, bag: Bag, tables: seq<Table>, write: Write, name: string)
    requires forall i | 0 <= i < |tables| :: name !in tables[i]
    ensures name in PopulateTables(metrics, bag, tables, write) <==> name in metrics
    ensures name in metrics ==> PopulateTables(metrics, bag, tables, write)[name] == metrics[name]
    decreases |tables|
  {
    if tables != [] {
      PopulatedKept(metrics, bag, tables[0], FloatFuncs, write, name);
      PopulateTablesKept(Populated(metrics, bag, tables[0], FloatFuncs, write), bag, tables[1..], write, name);
    }
  }

  /**
   * A later table wins: a name that the `i`-th table writes and no later
   * table defines holds that table's outcome at the end.
   */
  lemma {:induction false} PopulateTablesLastWins(metrics: map<string, Value>, bag: Bag, tables: seq<Table>, write: Write, i: nat, name: string)
    requires i < |tables| && name in tables[i]
    requires Outcome(bag, name, tables[i][name], FloatFuncs, write).Some?
    requires forall j | i < j < |tables| :: name !in tables[j]
    ensures name in PopulateTables(metrics, bag, tables, write)
    ensures PopulateTables(metrics, bag, tables, write)[name] == Outcome(bag, name, tables[i][name], FloatFuncs, write).value
    decreases |tables|
  {
    var next := Populated(metrics, bag, tables[0], FloatFuncs, write);
    if i == 0 {
      PopulatedWritten(metrics, bag, tables[0], FloatFuncs, write, name);
      PopulateTablesKept(next, bag, tables[1..], write, name);
    } else {
      PopulateTablesLastWins(next, bag, tables[1..], write, i - 1, name);
    }
  }

  /** The raw bag of the unit test of `populatePartialMetrics`. */
  const ExampleBag: Bag := map["raw_metric_1" := Int(1), "raw_metric_2" := Int(2), "raw_metric_3" := Str("foo")]

  /**
   * The test's function source: the sum of the first two raw metrics. The
   * test applies it only to `ExampleBag`, where both are ints; on a bag
   * without them Go's `.(int)` assertions panic, while this total function
   * reads 0 for each missing int.
   */
  function ExampleSum(bag: Bag): (r: (Float, bool))
    ensures r.1
    ensures r.0 == FromInt(IntAt(bag, "raw_metric_1").0 + IntAt(bag, "raw_metric_2").0)
  {
    (FromInt(IntAt(bag, "raw_metric_1").0 + IntAt(bag, "raw_metric_2").0), true)
  }

  /** The test's table: three direct keys, a missing key, a source of another type and a function. */
  const ExampleTable: Table := map[
    "rawMetric1" := Definition(Direct("raw_metric_1"), Gauge),
    "rawMetric2" := Definition(Direct("raw_metric_2"), Gauge),
    "rawMetric3" := Definition(Direct("raw_metric_3"), Attribute),
    "unknownMetric" := Definition(Direct("raw_metric_4"), Gauge),
    "badRawSource" := Definition(Other, Gauge),
    "functionSource" := Definition(FloatFunc(ExampleSum), Gauge)
  ]

  /** A metric set that stores every value as it is given. */
  function StoreAsGiven(name: string, value: Value, kind: SourceType): (r: Option<Value>)
    ensures r == Some(value)
  {
    Some(value)
  }

  /**
   * The unit test of `populatePartialMetrics`: the direct keys and the
   * function are stored, the missing key and the bad source are not.
   */
  lemma PopulatePartialExample()
    ensures var result := Populated(map[], ExampleBag, ExampleTable, FloatFuncs, StoreAsGiven);
      && "rawMetric1" in result && result["rawMetric1"] == Int(1)
      && "rawMetric2" in result && result["rawMetric2"] == Int(2)
      && "rawMetric3" in result && result["rawMetric3"] == Str("foo")
      && "functionSource" in result && result["functionSource"] == Float64(Finite(3.0))
      && "unknownMetric" !in result && "badRawSource" !in result
  {
    PopulatedWritten(map[], ExampleBag, ExampleTable, FloatFuncs, StoreAsGiven, "rawMetric1");
    PopulatedWritten(map[], ExampleBag, ExampleTable, FloatFuncs, StoreAsGiven, "rawMetric2");
    PopulatedWritten(map[], ExampleBag, ExampleTable, FloatFuncs, StoreAsGiven, "rawMetric3");
    PopulatedWritten(map[], ExampleBag, ExampleTable, FloatFuncs, StoreAsGiven, "functionSource");
    PopulatedKept(map[], ExampleBag, ExampleTable, FloatFuncs, StoreAsGiven, "unknownMetric");
    PopulatedKept(map[], ExampleBag, ExampleTable, FloatFuncs, StoreAsGiven, "badRawSource");
  }
}

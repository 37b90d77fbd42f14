/**
 * The MySQL integration's entry point (`integrations/mysql/src/mysql.go`):
 * the data source name built from the arguments, and `main`'s sequence of
 * steps with its flag gating. Opening the database, the three queries and
 * the JSON marshaller are inputs: their outcomes are parameters.
 */
module MysqlMain {
  import opened Wrappers
  import opened Values
  import opened GoStrings
  import opened GoStrconv
  import opened Sdk
  import opened Populator
  import opened MysqlParse

  /** `argumentList` with the SDK's default flags `All`, `Inventory` and `Metrics`. */
  datatype Arguments = Arguments(
    hostname: string,
    port: int,
    username: string,
    password: string,
    database: string,
    extendedMetrics: bool,
    extendedInnodbMetrics: bool,
    extendedMyIsamMetrics: bool,
    all: bool,
    inventory: bool,
    metrics: bool)

  /** The declared defaults: localhost, port 3306, empty credentials and database, no extended tables. */
  const DefaultArguments := Arguments("localhost", 3306, "", "", "", false, false, false, false, false, false)

  /**
   * `generateDSN`: `user:password@tcp(host:port)/database`, every field
   * inserted verbatim and the port written in decimal.
   */
  function GenerateDSN(args: Arguments): (dsn: string)
    ensures |dsn| == |args.username| + |args.password| + |args.hostname| + |FormatInt(args.port)| + |args.database| + 9
  {
    args.username + ":" + args.password + "@tcp(" + args.hostname + ":" + FormatInt(args.port) + ")/" + args.database
  }

  /** Empty fields and port 0 give ":@tcp(:0)/". */
  lemma DSNOfEmpty()
    ensures GenerateDSN(Arguments("", 0, "", "", "", false, false, false, false, false, false)) == ":@tcp(:0)/"
  {
    assert FormatInt(0) == "0";
  }

  /** The defaults point at localhost port 3306. */
  lemma DSNOfDefaults()
    ensures GenerateDSN(DefaultArguments) == ":@tcp(localhost:3306)/"
  {
    DefaultPortDigits();
  }

  lemma DefaultPortDigits()
    ensures FormatInt(3306) == "3306"
  {
    assert NatToDigits(33) == NatToDigits(3) + "3";
    assert NatToDigits(330) == NatToDigits(33) + "0";
    assert NatToDigits(3306) == NatToDigits(330) + "6";
  }

  /** A user name without ':' is everything before the first ':'. */
  lemma DSNUsername(args: Arguments)
    requires ':' !in args.username
    ensures ':' in GenerateDSN(args)
    ensures GenerateDSN(args)[..IndexOf(GenerateDSN(args), ':')] == args.username
  {
    var dsn := GenerateDSN(args);
    var n := |args.username|;
    assert dsn[..n] == args.username;
    assert dsn[n] == ':';
    IndexOfFirst(dsn, ':', n);
  }

  /** The database name is everything after the last ")/". */
  lemma DSNDatabase(args: Arguments)
    ensures var dsn := GenerateDSN(args);
      dsn[|dsn| - |args.database| - 2..] == ")/" + args.database
  {
  }

  /**
   * Nothing is escaped: a ':' moved between the user name and the password
   * gives the same name, so the two cannot be told apart.
   */
  lemma DSNAmbiguous()
    ensures var a := DefaultArguments.(username := "u", password := "p:q");
      var b := DefaultArguments.(username := "u:p", password := "q");
      a != b && GenerateDSN(a) == GenerateDSN(b)
  {
    var a := DefaultArguments.(username := "u", password := "p:q");
    var b := DefaultArguments.(username := "u:p", password := "q");
    assert a.username != b.username by {
      assert |a.username| != |b.username|;
    }
    assert "u" + ":" + "p:q" == "u:p" + ":" + "q";
  }

  /** Inventory is populated under `All` or `Inventory`. */
  predicate WantsInventory(args: Arguments) {
    args.all || args.inventory
  }

  /** Metrics are populated under `All` or `Metrics`. */
  predicate WantsMetrics(args: Arguments) {
    args.all || args.metrics
  }

  /** The definition tables `populateMetrics` selects from: default, extended, InnoDB, MyISAM. */
  datatype Tables = Tables(default: Table, extended: Table, innodb: Table, myisam: Table)

  /** The tables `populateMetrics` applies under the given arguments. */
  function Selected(tables: Tables, args: Arguments): seq<Table> {
    SelectedTables(tables.default, tables.extended, tables.innodb, tables.myisam,
      args.extendedMetrics, args.extendedInnodbMetrics, args.extendedMyIsamMetrics)
  }

  /**
   * `main` after `NewIntegration`: the "DatastoreSample" metric set is
   * created first, whatever the flags; a failure to open the database or of
   * `getRawData` is fatal (returned, nothing populated); otherwise the rest
   * of `main` runs. `tables` are MySQL's four definition tables.
   */
  method Run(integration: Integration, args: Arguments, tables: Tables, openError: Option<string>,
             variables: Result<Bag, string>, status: Result<Bag, string>, replica: Result<Bag, string>,
             write: Write, saveError: Option<string>, marshal: bool -> Result<string, string>)
    returns (err: Option<string>, sample: MetricSet)
    modifies integration, integration.inventory
    ensures fresh(sample) && sample.eventType == "DatastoreSample" && sample.provider == Some("MySQL")
    ensures integration.metrics == old(integration.metrics) + [sample]
    ensures integration.inventory == old(integration.inventory)
    ensures openError.Some? ==> err == openError
    ensures openError.Some? || variables.Err? || status.Err? ==>
      err.Some? && sample.metrics == map[] && integration.inventory.items == old(integration.inventory.items)
    ensures openError.None? && variables.Ok? && status.Ok? ==>
      Finished(integration, sample, args, tables, old(integration.inventory.items), variables.value,
        MetricsOf(status.value, variables.value, replica), write, err, saveError, marshal)
  {
    sample := integration.NewMetricSet("DatastoreSample", "MySQL");
    if openError.Some? {
      return openError, sample;
    }
    var raw := GetRawData(variables, status, replica);
    if raw.Err? {
      return Some(raw.error), sample;
    }
    MetricsOfRaw(status.value, variables.value, replica, raw.value.1);
    err := PopulateAndPublish(integration, sample, args, tables, raw.value.0, raw.value.1, write, saveError, marshal);
  }

  /**
   * The state `main` leaves once the raw data is in: the inventory
   * populated under `All` or `Inventory`, the sample's metrics under `All`
   * or `Metrics`, each left as it was otherwise, and the error `Publish`
   * reports.
   */
  ghost predicate Finished(integration: Integration, sample: MetricSet, args: Arguments, tables: Tables, items: map<string, Item>,
                           rawInventory: Bag, rawMetrics: Bag, write: Write,
                           err: Option<string>, saveError: Option<string>, marshal: bool -> Result<string, string>)
    reads integration, integration.inventory, sample
  {
    && integration.inventory.items == (if WantsInventory(args) then WithValueItems(items, rawInventory) else items)
    && sample.metrics == (if WantsMetrics(args) then PopulateTables(map[], rawMetrics, Selected(tables, args), write) else map[])
    && err == PublishError(saveError, marshal, integration.prettyOutput)
  }

  /** The rest of `main`: the two gated populations, then `Publish`. */
  method PopulateAndPublish(integration: Integration, sample: MetricSet, args: Arguments, tables: Tables,
                            rawInventory: Bag, rawMetrics: Bag,
                            write: Write, saveError: Option<string>, marshal: bool -> Result<string, string>)
    returns (err: Option<string>)
    requires sample.metrics == map[]
    modifies integration.inventory, sample
    ensures Finished(integration, sample, args, tables, old(integration.inventory.items), rawInventory, rawMetrics, write, err, saveError, marshal)
  {
    GatedInventory(integration.inventory, args, rawInventory);
    GatedMetrics(sample, args, tables, rawMetrics, write);
    var printed;
    err, printed := integration.Publish(saveError, marshal);
  }

  /** `populateInventory` under `All` or `Inventory`. */
  method GatedInventory(inventory: Inventory, args: Arguments, raw: Bag)
    modifies inventory
    ensures inventory.items == if WantsInventory(args) then WithValueItems(old(inventory.items), raw) else old(inventory.items)
  {
    if WantsInventory(args) {
      PopulateInventory(inventory, raw);
    }
  }

  /** `populateMetrics` under `All` or `Metrics`. */
  method GatedMetrics(sample: MetricSet, args: Arguments, tables: Tables, raw: Bag, write: Write)
    modifies sample
    ensures sample.metrics == if WantsMetrics(args) then PopulateTables(old(sample.metrics), raw, Selected(tables, args), write) else old(sample.metrics)
  {
    if WantsMetrics(args) {
      PopulateFlagged(sample, raw, tables.default, tables.extended, tables.innodb, tables.myisam,
        args.extendedMetrics, args.extendedInnodbMetrics, args.extendedMyIsamMetrics, write);
    }
  }

  /** The raw metrics `getRawData` builds from the status rows, the variables and the replica outcome. */
  ghost function MetricsOf(status: Bag, variables: Bag, replica: Result<Bag, string>): (m: Bag)
    ensures m.Keys == status.Keys + CopiedKeys + (if replica.Ok? then {"node_type"} else {})
  {
    map k | k in status.Keys + CopiedKeys + (if replica.Ok? then {"node_type"} else {}) ::
      if k in CopiedKeys then Get(variables, k)
      else if replica.Ok? && k == "node_type" then Str(if |replica.value| == 0 then "master" else "slave")
      else status[k]
  }

  /** What `GetRawData` promises about its metrics determines them: they are `MetricsOf`. */
  lemma MetricsOfRaw(status: Bag, variables: Bag, replica: Result<Bag, string>, m: Bag)
    requires m.Keys == status.Keys + CopiedKeys + (if replica.Ok? then {"node_type"} else {})
    requires forall k | k in CopiedKeys :: m[k] == Get(variables, k)
    requires replica.Ok? ==> m["node_type"] == Str(if |replica.value| == 0 then "master" else "slave")
    requires forall k | k in status && k !in CopiedKeys && (replica.Err? || k != "node_type") :: m[k] == status[k]
    ensures m == MetricsOf(status, variables, replica)
  {
    NodeTypeNotCopied();
  }

  /** The error `Publish` reports: the cache save error, else the JSON error, else none. */
  function PublishError(saveError: Option<string>, marshal: bool -> Result<string, string>, pretty: bool): (err: Option<string>)
    ensures saveError.Some? ==> err == saveError
    ensures saveError.None? ==> (err.None? <==> ToJson(marshal(pretty)).Ok?)
  {
    if saveError.Some? then saveError
    else if ToJson(marshal(pretty)).Err? then Some(ToJson(marshal(pretty)).error)
    else None
  }
}

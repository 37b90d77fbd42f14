# infra-integrations: the translation layer, modelled in Dafny

The repository holds small Go programs, plus a Python example, that each poll
one service and print one JSON document for the infrastructure agent:
Apache (`mod_status` page, `httpd -M`/`httpd -V`), MySQL (`SHOW GLOBAL
VARIABLES`, `SHOW STATUS`, `SHOW SLAVE STATUS`), NGINX (stub status page or
the Plus JSON document), Cassandra (JMX beans, `nodetool version`, the YAML
configuration) and the vendored SDK that holds the output
(`sdk.Integration`, `sdk.Inventory`). Between fetching and printing sits a
deterministic, sequential layer that turns raw text and raw maps into
inventory items and metric samples. This project models that layer and
proves what it does.

Modules, one per source file or shared concern:

- `Wrappers`, `Values`: `Option`/`Result`; the dynamic values that flow
  through `map[string]interface{}` (`Value`: int, float64, bool, string,
  nil, string-keyed and any-keyed maps, lists), Go's 64-bit wrap-around and
  float64 as `Finite(real) | PosInf | NegInf | NaN`.
- `GoStrconv`, `GoStrings`, `LineReader`: the parts of `strconv`
  (`Atoi`, `ParseFloat`, `ParseBool`), `strings` (`Split`, `TrimSpace`,
  `Contains`, `Count`, `Replace`) and `bufio.Reader.ReadString('\n')` that
  the integrations rely on, each with its defining properties.
- `Coercion`: `asValue`, shared verbatim by the Apache and MySQL code.
- `Sdk`: `Integration`, `Inventory` and the metric set as classes whose
  fields the methods update in place; marshalling, the cache and argument
  setup are parameters.
- `Populator`: the one `populateMetrics` loop that all four integrations
  copy; `Populated` is its order-free specification, and the loop over the
  table (Go map order, modelled as an arbitrary choice) is proved equal to
  it.
- `MysqlMetrics`, `MysqlParse`, `MysqlMain`; `ApacheMetrics`,
  `ApacheInventory`; `NginxStatus` (the status-line expressions as token
  matchers), `NginxMetrics`; `CassandraMetrics`, `CassandraInventory`;
  `PyExample`.

Where the Go code panics (a failed type assertion, a slice out of range,
a write into a nil map) the model either makes the panic an explicit
result (`Fault.Panic` in `NginxMetrics`) or states as a precondition the
condition under which the code does not panic (`ApacheInventory`,
`CassandraInventory`). Where the merge conflict in the MySQL and SDK
sources leaves two versions (`<<<<<<< HEAD` / `>>>>>>> upstream/master`),
both are modelled and named apart (`Publish` / `PublishUpstream`,
`PopulateInventory` / `PopulateInventoryUpstream`).

One behaviour worth knowing: when the NGINX status page does not parse,
`getMetricsData` writes the version into the nil map that
`getStandardMetrics` returned before it looks at the error, so the
program panics instead of reporting "Line N of status doesn't match"
(integrations/nginx/src/metrics.go:177-182). `NginxMetrics.RawMetrics`
and `NginxMetrics.GetMetricsData` model exactly that: the result is
`Panic("assignment to entry in nil map")`.

## Model

| member | source | states |
|---|---|---|
| Values.SetField | vendor/github.com/newrelic/infra-integrations-sdk/sdk/data.go:25-32 | setting one field of one item: the item gains exactly that key, holds the value there, keeps its other fields, and every other item is unchanged |
| Values.Get | integrations/mysql/src/metrics-parse.go:52-55 | a map index that yields nil for an absent key and the stored value otherwise |
| Values.IntAt | integrations/mysql/src/metrics.go:50-58 | the `m[k].(int)` assertion: ok exactly when the key holds an int, with that int, else 0 |
| Values.StrAt | integrations/apache/src/metrics.go:84 | the `m[k].(string)` assertion: ok exactly when the key holds a string, with that string, else "" |
| Values.Wrap64 | integrations/apache/src/metrics.go:102-108 | Go's 64-bit int arithmetic: the result is in int64 range, congruent to the exact value modulo 2^64, and equal to it when it is in range |
| Values.Quotient | integrations/mysql/src/metrics.go:55 | float64 division: finite exactly when the divisor is non-zero (then the exact quotient); 0/0 is NaN, positive/0 is +Inf |
| Values.OneMinus | integrations/mysql/src/metrics.go:55 | `1 - x` on float64: finite stays finite and sums to 1, NaN stays NaN, +Inf becomes -Inf |
| Values.FromInt | integrations/apache/src/metrics.go:86 | `float64(n)`: a finite value whose floor is n |
| GoStrconv.NatToDigits | integrations/cassandra/src/metrics.go:132 | decimal digits of a natural number: non-empty, all digits, no leading zero, and their value is the number |
| GoStrconv.FormatInt | integrations/mysql/src/mysql.go:29 | the decimal text of an int, starting with '-' exactly when it is negative |
| GoStrconv.Atoi | integrations/apache/src/metrics.go:34 | `strconv.Atoi`: succeeds exactly when the text is an optional sign followed by one or more digits whose value lies in int64 range, and then returns that value; digit text out of range is an error |
| GoStrconv.AtoiFormatInt | integrations/nginx/src/metrics.go:82 | every int64 survives formatting then `Atoi` unchanged |
| GoStrconv.ParseBool | integrations/apache/src/metrics.go:42 | `strconv.ParseBool`: true exactly for 1 t T TRUE true True, false exactly for 0 f F FALSE false False, an error otherwise |
| GoStrconv.ParseFloat | integrations/apache/src/metrics.go:38 | `strconv.ParseFloat(s, 64)`: succeeds exactly on an infinity/NaN spelling (returning it) or on a decimal literal whose value is below the overflow threshold; a finite result is that literal's value |
| GoStrconv.IntegerIsDecimal | integrations/mysql/src/metrics-parse.go:19-25 | integer text of any size is a decimal float literal of the same value |
| GoStrconv.AtoiIsFloat | integrations/mysql/src/metrics-parse.go:19-25 | every text `Atoi` accepts is also a decimal literal with the same value, so the integer branch of `asValue` only pre-empts an equal float |
| GoStrconv.DigitRunOfDigits | integrations/nginx/src/metrics.go:82 | a text of digits is one whole digit run |
| Coercion.AsValue | integrations/mysql/src/metrics-parse.go:18-31 | `asValue`: an int exactly when `Atoi` succeeds, else a float64 exactly when `ParseFloat` succeeds, else a bool from `ParseBool`, else the input string itself; it never fails |
| Coercion.AsValueOfWideInteger | integrations/mysql/src/metrics-parse.go:18-31 | integer text outside int64 range falls through to the float branch and comes back as a float64 of the same value, as long as it does not overflow float64 |
| Coercion.AsValueOfInt | integrations/apache/src/metrics.go:33-36 | the decimal text of any int64 comes back as that int |
| Coercion.AsValueBoolSpellings | integrations/apache/src/metrics.go:42-44 | only the ten letter spellings of Go booleans become bools ("1" and "0" are ints first) |
| Coercion.AsValueExamples | integrations/mysql/src/mysql_test.go:10-42 | "10" is int 10, "0.12" is float64 0.12, "true" is bool true, "test string" stays the string |
| GoStrings.Split | integrations/apache/src/metrics.go:131 | `strings.Split` on one character: no part contains the separator, joining the parts gives back the text, and there is one more part than separators |
| GoStrings.SplitJoin | integrations/cassandra/src/metrics.go:174 | splitting the join of separator-free parts gives back exactly those parts |
| GoStrings.UniqueSplit | integrations/cassandra/src/metrics.go:174-177 | two separator-free part lists with the same join are equal |
| GoStrings.JoinFirstSeparator | integrations/apache/src/inventory.go:91-92 | a join holds the separator exactly when there are two or more parts, and its first separator ends the first part |
| GoStrings.TrimLeft | integrations/apache/src/metrics.go:135 | drops exactly the leading Unicode white space |
| GoStrings.TrimRight | integrations/apache/src/metrics.go:135 | drops exactly the trailing Unicode white space |
| GoStrings.TrimSpace | integrations/cassandra/src/metrics.go:179 | `strings.TrimSpace`: a slice of the text with only white space before and after it in the text, and which itself neither starts nor ends with white space |
| GoStrings.ContainsFrom | integrations/apache/src/inventory.go:65 | a front-to-back search that agrees with `strings.Contains` |
| GoStrings.Count | integrations/apache/src/metrics.go:86 | `strings.Count`: the empty pattern counts one more than the length |
| GoStrings.CountChar | integrations/apache/src/metrics.go:86 | counting a one-character pattern gives the number of occurrences of that character |
| GoStrings.RemoveAll | integrations/nginx/src/metrics.go:178 | `strings.Replace(s, p, "", -1)`: never longer than the input (`RemoveAllPieces` says what it removes) |
| GoStrings.RemoveAllPieces | integrations/nginx/src/metrics.go:178 | text cut at the occurrences a left-to-right scan finds loses exactly those occurrences: the result is the pieces between them, in order |
| GoStrings.RemoveAllPrefix | integrations/nginx/src/metrics.go:178 | `"nginx/" + version` gives back `version` whenever the version does not itself contain the pattern |
| GoStrings.RemoveAllAbsent | integrations/nginx/src/metrics.go:178 | removing a pattern that does not occur leaves the text unchanged |
| GoStrings.IndexOf | integrations/mysql/src/mysql.go:29 | the first index holding a character: it holds it and no earlier index does |
| GoStrings.IndexOfFirst | integrations/mysql/src/mysql.go:29 | any index that holds the character with none before it is that first index |
| LineReader.ReadString | integrations/apache/src/metrics.go:122 | `ReadString('\n')`: no error exactly when a newline is left, returning the text up to and including the first one; otherwise all remaining text with the stream's end error, which repeats; the line and the rest always make up the input |
| LineReader.CompleteLines | integrations/apache/src/inventory.go:57-63 | the lines a read-until-error loop examines are all newline-terminated |
| LineReader.CompleteLinesCover | integrations/apache/src/metrics.go:121-126 | the complete lines and a newline-free tail make up the whole text |
| LineReader.CompleteLinesIgnoreTail | integrations/apache/src/metrics.go:121-126 | appending a text without a newline changes none of the complete lines: a last line without '\n' is never examined |
| LineReader.ReadStringAppend | integrations/nginx/src/metrics.go:65 | a read that finds a newline is unaffected by what follows |
| LineReader.Put | integrations/apache/src/metrics.go:135 | storing an optional entry: nothing for none, one overwrite for some |
| LineReader.CollectKeys | integrations/apache/src/metrics.go:121-136 | after the line loop a key is present exactly when it was before or some line names it |
| LineReader.CollectUntouched | integrations/apache/src/inventory.go:55-72 | a key no line names keeps its earlier value |
| LineReader.CollectLastWins | integrations/apache/src/metrics.go:135 | a key holds the value of the last line that names it |
| LineReader.CollectSameValue | integrations/apache/src/inventory.go:68 | when every line that names a key stores the same value, the key ends with that value |
| Sdk.MetricSet.constructor | vendor/github.com/newrelic/infra-integrations-sdk/sdk/data.go:92-96 | a new metric set has the event type (and, on the HEAD side, the provider) and no metrics |
| Sdk.MetricSet.AddMetric | integrations/mysql/src/metrics-parse.go:108-112 | writing one metric: on success the name holds what the writer stored and nothing else changes; on failure the set is unchanged |
| Sdk.Inventory.constructor | integrations/cassandra/src/inventory.go:30 | a new inventory has no items |
| Sdk.Inventory.SetItem | vendor/github.com/newrelic/infra-integrations-sdk/sdk/data.go:25-32 | `SetItem`: the items become `SetField` of the old items |
| Sdk.ToJson | vendor/github.com/newrelic/infra-integrations-sdk/sdk/data.go:136-155 | `toJSON`: marshal errors come back prefixed "Error marshalling to JSON: "; the text "null" becomes "[]"; any other text passes through |
| Sdk.ToJsonDistinguishes | vendor/github.com/newrelic/infra-integrations-sdk/sdk/data.go:136-155 | the output tells marshalling outcomes apart: errors from documents, each error from every other, each document from every other except "null" from "[]" |
| Sdk.Integration.constructor | vendor/github.com/newrelic/infra-integrations-sdk/sdk/data.go:73-85 | name and version as given, protocol "1", pretty flag as given, empty metrics, events and inventory |
| Sdk.Integration.NewMetricSet | vendor/github.com/newrelic/infra-integrations-sdk/sdk/data.go:92-99 | HEAD side: a fresh empty set with the event type and provider, appended as the last element of Metrics and returned; nothing else changes |
| Sdk.Integration.NewMetricSetUpstream | vendor/github.com/newrelic/infra-integrations-sdk/sdk/data.go:95-99 | upstream side: the same, without a provider |
| Sdk.Integration.Publish | vendor/github.com/newrelic/infra-integrations-sdk/sdk/data.go:104-117 | HEAD side: the save error, else the `toJSON` error, is returned without printing; otherwise the JSON text is printed once and no error is returned; nothing changes |
| Sdk.Integration.PublishUpstream | vendor/github.com/newrelic/infra-integrations-sdk/sdk/data.go:104-123 | upstream side: the same outcomes; after printing, metrics, events and inventory are cleared; on an error the state is unchanged |
| Sdk.Integration.Clear | vendor/github.com/newrelic/infra-integrations-sdk/sdk/data.go:127-131 | metrics and events empty, inventory a fresh empty one |
| Sdk.NewIntegration | vendor/github.com/newrelic/infra-integrations-sdk/sdk/data.go:59-88 | the argument-setup error, else the cache-status error, else a fresh integration with the given name, version and pretty flag, protocol "1" and nothing collected |
| Populator.Resolve | integrations/apache/src/metrics.go:52-67 | a metric's raw source: a key is found exactly when present, with its value; a function is used only when its kind is the one this copy accepts and it reports found; any other source yields nothing |
| Populator.Step | integrations/apache/src/metrics.go:49-76 | one table entry: the name is written with the writer's result when the source resolves and the write succeeds, otherwise the metrics are unchanged |
| Populator.PopulatedStep | integrations/apache/src/metrics.go:49-76 | adding one entry to the table is the same as populating the rest and then doing that entry's step |
| Populator.Populate | integrations/apache/src/metrics.go:48-78 | the loop over the table, in any order, leaves exactly `Populated` of the old metrics |
| Populator.PopulateEntry | integrations/nginx/src/metrics.go:129-155 | one iteration of the loop is `Step` |
| Populator.EmptyTable | integrations/apache/src/metrics.go:48-78 | an empty table changes nothing |
| Populator.InOrderIsPopulated | integrations/cassandra/src/metrics.go:183-210 | populating the entries one by one in any listed order equals `Populated` over those entries |
| Populator.PopulateInAnyOrder | integrations/mysql/src/metrics-parse.go:86-113 | every iteration order of the whole table gives the same result, `Populated` |
| Populator.PopulatedWritten | integrations/apache/src/metrics.go:68-75 | a table name whose source resolves and whose write succeeds holds the written value |
| Populator.PopulatedKept | integrations/apache/src/metrics.go:62-75 | a name outside the table, or whose source is missing, false, of another type, or whose write fails, keeps exactly what it had (present or absent) |
| MysqlMetrics.QCacheUtilization | integrations/mysql/src/metrics.go:50-58 | found exactly when Qcache_free_blocks and Qcache_total_blocks are both ints; then 1 - free/total (not finite when total is 0); otherwise (0, false) |
| MysqlMetrics.QCacheHitRatio | integrations/mysql/src/metrics.go:60-68 | found exactly when Qcache_hits and Queries are both ints; then hits/queries; otherwise (0, false) |
| MysqlMetrics.ThreadCacheMissRate | integrations/mysql/src/metrics.go:104-112 | found exactly when Threads_created and Connections are both ints; then created/connections; otherwise (0, false) |
| MysqlMetrics.KeyCacheUtilization | integrations/mysql/src/metrics.go:155-164 | found exactly when Key_blocks_unused, key_cache_block_size and key_buffer_size are all ints; then 1 - unused*blockSize/bufferSize; otherwise (0, false) |
| MysqlMetrics.ZeroDenominatorsFound | integrations/mysql/src/metrics.go:50-68 | no zero denominator is guarded: an empty query cache reports (NaN, true) and hits over zero queries report (+Inf, true) |
| MysqlMetrics.QCacheUtilizationBounds | integrations/mysql/src/metrics.go:50-58 | with 0 <= free <= total and total > 0 the utilization is a finite ratio in [0, 1] |
| MysqlMetrics.QCacheHitRatioBounds | integrations/mysql/src/metrics.go:60-68 | with 0 <= hits <= queries and queries > 0 the ratio is finite and in [0, 1] |
| MysqlMetrics.DefaultAttributes | integrations/mysql/src/metrics.go:45-47 | the default table's ATTRIBUTE entries are exactly software.Edition, software.Version and cluster.NodeType, sourced from version_comment, version and node_type |
| MysqlMetrics.DefaultAttributesResolve | integrations/mysql/src/metrics-parse.go:46-55 | when `getRawData` has injected those three keys, every default attribute resolves |
| MysqlMetrics.SixteenLetterNames | integrations/mysql/src/metrics.go:5-48 | every default-table name of sixteen characters is one of the three attributes |
| MysqlMetrics.OtherNames | integrations/mysql/src/metrics.go:5-48 | every other default-table name is not an attribute |
| MysqlParse.GetRawData | integrations/mysql/src/metrics-parse.go:33-58 | the variables error, else the status error, aborts with no maps; otherwise the inventory is the variables, and the metrics are the status rows plus node_type ("master" for an empty replica result, "slave" otherwise, absent when the replica query fails) plus the four copied keys, taken from the variables and nil when absent |
| MysqlParse.SetNodeType | integrations/mysql/src/metrics-parse.go:42-49 | node_type is set only when the replica query succeeds, to "master" for no rows and "slave" otherwise; other keys are unchanged |
| MysqlParse.CopyVariables | integrations/mysql/src/metrics-parse.go:52-55 | the four keys are overwritten from the variables (nil when absent); every other key is unchanged |
| MysqlParse.PopulateInventory | integrations/mysql/src/metrics-parse.go:61-64 | HEAD side: every raw key becomes the item {"value": v}, replacing what was there; other items are unchanged |
| MysqlParse.WithValueItemsContents | integrations/mysql/src/mysql_test.go:89-103 | the item of every raw key holds exactly {"value": raw value}; keys not in the raw bag keep their items |
| MysqlParse.PopulateInventoryUpstream | integrations/mysql/src/metrics-parse.go:65-69 | upstream side: `SetItem(name, "value", v)` for every raw key |
| MysqlParse.SetValue | integrations/mysql/src/metrics-parse.go:67 | one `SetItem` call: the "value" field set, the item's other fields kept |
| MysqlParse.WithValueFieldsContents | integrations/mysql/src/metrics-parse.go:65-69 | upstream result: each raw key's item has "value" equal to the raw value, keeps its other fields and gains no others; untouched keys keep their items |
| MysqlParse.PopulatePartialMetrics | integrations/mysql/src/metrics-parse.go:85-114 | `populatePartialMetrics` leaves exactly `Populated` with float64 functions accepted; a failed write skips only that entry |
| MysqlParse.PopulateMetrics | integrations/mysql/src/metrics-parse.go:72-84 | the default table always, then the extended, InnoDB and MyISAM tables only when their flags are set, in that order |
| MysqlParse.Flagged | integrations/mysql/src/metrics-parse.go:74-82 | a flag selects its table once or not at all |
| MysqlParse.PopulateFlagged | integrations/mysql/src/metrics-parse.go:72-84 | the flagged sequence of `populatePartialMetrics` calls is `PopulateTables` over the selected tables |
| MysqlParse.FlaggedStep | integrations/mysql/src/metrics-parse.go:74-76 | one guarded call is one conditional population |
| MysqlParse.PopulateTablesKept | integrations/mysql/src/metrics-parse.go:72-84 | a name in none of the selected tables keeps what it had |
| MysqlParse.PopulateTablesLastWins | integrations/mysql/src/metrics-parse.go:72-84 | a name holds the value from the last selected table that writes it |
| MysqlParse.ExampleSum | integrations/mysql/src/mysql_test.go:50-54 | the test's function source: always found, the sum of raw_metric_1 and raw_metric_2 |
| MysqlParse.StoreAsGiven | integrations/mysql/src/mysql_test.go:74-86 | the test inspects what was written: a writer that stores the value as given |
| MysqlParse.PopulatePartialExample | integrations/mysql/src/mysql_test.go:44-87 | rawMetric1 = 1, rawMetric2 = 2, rawMetric3 = "foo", functionSource = 3; unknownMetric and badRawSource absent |
| MysqlMain.GenerateDSN | integrations/mysql/src/mysql.go:28-30 | the DSN's length is the sum of its fields' lengths and the nine fixed characters of `user:pass@tcp(host:port)/db` |
| MysqlMain.DSNOfEmpty | integrations/mysql/src/mysql.go:29 | all-empty strings and port 0 give ":@tcp(:0)/" |
| MysqlMain.DSNOfDefaults | integrations/mysql/src/mysql.go:16-30 | the default arguments give ":@tcp(localhost:3306)/" |
| MysqlMain.DSNUsername | integrations/mysql/src/mysql.go:29 | a username without ':' is exactly what precedes the first ':' of the DSN |
| MysqlMain.DSNDatabase | integrations/mysql/src/mysql.go:29 | the DSN ends with ")/" followed by the database name |
| MysqlMain.DSNAmbiguous | integrations/mysql/src/mysql.go:29 | fields are not escaped: user "u" with password "p:q" and user "u:p" with password "q" give the same DSN |
| MysqlMain.Run | integrations/mysql/src/mysql.go:34-57 | the DatastoreSample set (provider MySQL) is appended before anything can fail; the open error, else the query error, ends the run with nothing populated; otherwise inventory is populated only under All or Inventory, metrics only under All or Metrics, and the publish outcome is returned |
| MysqlMain.PopulateAndPublish | integrations/mysql/src/mysql.go:48-56 | the gated population followed by `Publish` |
| MysqlMain.GatedInventory | integrations/mysql/src/mysql.go:48-50 | inventory is populated exactly when All or Inventory is set |
| MysqlMain.GatedMetrics | integrations/mysql/src/mysql.go:52-54 | metrics are populated exactly when All or Metrics is set |
| MysqlMain.MetricsOf | integrations/mysql/src/metrics-parse.go:42-55 | the raw metrics' keys are the status keys, the copied keys and node_type when the replica query succeeded |
| MysqlMain.MetricsOfRaw | integrations/mysql/src/metrics-parse.go:42-55 | any map with `getRawData`'s keys and values is that one map |
| MysqlMain.PublishError | integrations/mysql/src/mysql.go:56 | the save error, else an error exactly when `toJSON` fails |
| ApacheMetrics.WorkerStatus | integrations/apache/src/metrics.go:82-90 | found exactly when Scoreboard is a string; then the number of occurrences of the status letter; otherwise (0, false) |
| ApacheMetrics.TotalWorkers | integrations/apache/src/metrics.go:93-99 | found exactly when Scoreboard is a string; then its length; otherwise (0, false) |
| ApacheMetrics.Bytes | integrations/apache/src/metrics.go:102-108 | found exactly when Total kBytes is an int; then kBytes * 1024 with 64-bit wrap-around; otherwise (0, false) |
| ApacheMetrics.BytesExact | integrations/apache/src/metrics.go:102-108 | without overflow the byte count is exactly kBytes * 1024 |
| ApacheMetrics.BytesExamples | integrations/apache/src/metrics_test.go:174-212 | 67 gives 68608; the float 67.4 and a misspelled key give (0, false) |
| ApacheMetrics.StatusTotalWithinLength | integrations/apache/src/metrics.go:16-31 | counts of distinct status letters add up to at most the scoreboard's length |
| ApacheMetrics.WorkerStatesWithinTotal | integrations/apache/src/metrics.go:16-31 | the worker-state metrics of the table never add up to more than totalWorkers |
| ApacheMetrics.StatusEntry | integrations/apache/src/metrics.go:131-135 | a line is stored exactly when it splits on ':' into two parts; the key is the untrimmed text before the ':', the value `asValue` of the trimmed text after it |
| ApacheMetrics.GetRawMetrics | integrations/apache/src/metrics.go:113-142 | `getRawMetrics` returns exactly `RawMetrics`: "Empty result" for no input or no stored line, the read error for a failing stream, otherwise the stored lines |
| ApacheMetrics.RawMetricsLastWins | integrations/apache/src/metrics_test.go:28-64 | a key holds the value of the last complete status line with that key |
| ApacheMetrics.RawMetricsOfEmpty | integrations/apache/src/metrics_test.go:77-86 | no bytes give the "Empty result" error |
| ApacheMetrics.RawMetricsWithoutStatusLines | integrations/apache/src/metrics_test.go:66-75 | when no complete line qualifies the result is the "Empty result" error |
| ApacheMetrics.RawMetricsContents | integrations/apache/src/metrics.go:121-136 | a key is present exactly when some complete status line has it |
| ApacheMetrics.StatusLineKeys | integrations/apache/src/metrics.go:121-136 | the keys collected from lines are exactly those of the status lines |
| ApacheMetrics.RawMetricsIgnoreUnterminatedLine | integrations/apache/src/metrics.go:121-126 | a final line without '\n' changes nothing |
| ApacheMetrics.NoLinesNoMetrics | integrations/apache/src/metrics.go:138-141 | text without a complete line gives "Empty result" |
| ApacheMetrics.PopulateMetrics | integrations/apache/src/metrics.go:48-78 | the Apache table populated with float64 functions accepted; the result is always nil |
| ApacheMetrics.GetMetricsData | integrations/apache/src/metrics.go:144-159 | the parse error is returned with the sample unchanged; otherwise the sample is populated from the parsed page and nil is returned |
| ApacheInventory.ModuleKey | integrations/apache/src/inventory.go:66-68 | "modules/" followed by the second space-separated field without its last seven characters |
| ApacheInventory.ModuleEntry | integrations/apache/src/inventory.go:65-69 | a line contributes an entry exactly when it contains "_module", keyed by `ModuleKey` with {"value": "enabled"} |
| ApacheInventory.GetModules | integrations/apache/src/inventory.go:51-73 | every complete line with "_module" stored as an enabled module, then the stream's failure, if any, returned |
| ApacheInventory.ModulesKeys | integrations/apache/src/inventory.go:55-72 | a key is present exactly when it was before or some module line yields it |
| ApacheInventory.ModulesEnabled | integrations/apache/src/inventory.go:52-68 | every module line's key holds the shared item {"value": "enabled"} |
| ApacheInventory.ModulesUntouched | integrations/apache/src/inventory.go:55-72 | items no module line names are unchanged |
| ApacheInventory.FirstVersionLine | integrations/apache/src/inventory.go:81-95 | the index of the first line containing "Server version": it is one, and no line before it is |
| ApacheInventory.FindVersion | integrations/apache/src/inventory.go:90-94 | nothing exactly when no complete line contains "Server version" |
| ApacheInventory.VersionStep | integrations/apache/src/inventory.go:90-94 | the first version line gives the trimmed text between its first and second ':'; any other line is skipped |
| ApacheInventory.AddVersion | integrations/apache/src/inventory.go:90-98 | a found version is stored as the item "version" = {"value": v}; otherwise the inventory is unchanged |
| ApacheInventory.GetVersion | integrations/apache/src/inventory.go:78-102 | the version item added when found; the read error returned, inventory unchanged, when the stream fails before a version line |
| ApacheInventory.GetInventory | integrations/apache/src/inventory.go:16-45 | the command errors first, then modules and version; "Empty result" when the combined inventory is empty |
| ApacheInventory.InventoryOfNothing | integrations/apache/src/inventory.go:39-43 | output with neither module nor version lines gives "Empty result" |
| NginxStatus.SpaceRun | integrations/nginx/src/metrics.go:42-45 | the longest prefix of `\s` characters |
| NginxStatus.MatchPrefix | integrations/nginx/src/metrics.go:75 | a match at the start yields one capture per named group, in order |
| NginxStatus.FindSubmatch | integrations/nginx/src/metrics.go:75 | `FindStringSubmatch`: the leftmost match's captures, one per named group |
| NginxStatus.MatchPrefixSound | integrations/nginx/src/metrics.go:42-45 | every match found is one the expression describes |
| NginxStatus.MatchPrefixComplete | integrations/nginx/src/metrics.go:42-45 | for the status expressions, whose adjacent tokens cannot overlap, every described prefix is found |
| NginxStatus.FindSubmatchNone | integrations/nginx/src/metrics.go:75-78 | no match exactly when the expression describes the line from no position |
| NginxStatus.StatusExpressionsSeparated | integrations/nginx/src/metrics.go:41-46 | the three status expressions have no overlapping adjacent tokens |
| NginxStatus.ActiveGroupNames | integrations/nginx/src/metrics.go:42 | the first expression's group is "active" |
| NginxStatus.ServerGroupNames | integrations/nginx/src/metrics.go:44 | the third line's groups are accepted, handled, requests |
| NginxStatus.StatesGroupNames | integrations/nginx/src/metrics.go:45 | the fourth line's groups are reading, writing, waiting |
| NginxMetrics.ConnectionsDropped | integrations/nginx/src/metrics.go:48-56 | found exactly when accepted and handled are both ints; then accepted - handled with 64-bit wrap-around; otherwise (0, false) |
| NginxMetrics.ConnectionsDroppedExact | integrations/nginx/src/metrics.go:48-56 | for non-negative int64 counters the result is exactly accepted - handled |
| NginxMetrics.StoreCapture | integrations/nginx/src/metrics.go:80-89 | a captured text `Atoi` accepts is stored under its group name; one it rejects is skipped |
| NginxMetrics.GetStandardMetrics | integrations/nginx/src/metrics.go:62-95 | `getStandardMetrics` returns exactly `StandardMetrics`: one line per slot, the nil slot's line ignored, a non-matching line an error, EOF the entries so far |
| NginxMetrics.StoreGroups | integrations/nginx/src/metrics.go:80-89 | the loop over the groups stores each convertible capture |
| NginxMetrics.StandardErrorLines | integrations/nginx/src/metrics.go:75-78 | the only errors are "Line 0/2/3 of status doesn't match": the nil slot 1 never fails |
| NginxMetrics.StandardFromError | integrations/nginx/src/metrics.go:64-78 | an error names a line whose slot holds an expression |
| NginxMetrics.StandardFromShape | integrations/nginx/src/metrics.go:63-94 | a result holds only non-negative group ints, or those plus version "" and edition "open source" |
| NginxMetrics.StandardFromEarly | integrations/nginx/src/metrics.go:67-69 | EOF before every slot is read returns the groups so far, without version or edition |
| NginxMetrics.StandardFromFull | integrations/nginx/src/metrics.go:91-92 | once every slot is read, version "" and edition "open source" are added |
| NginxMetrics.StandardMetricsShape | integrations/nginx/src/metrics.go:62-95 | fewer than four complete lines at EOF give only group ints; four or more (or a failing stream) give the finished bag |
| NginxMetrics.FinishedIsNotGroups | integrations/nginx/src/metrics.go:91-92 | the two shapes are disjoint |
| NginxMetrics.Child | integrations/nginx/src/metrics.go:114-118 | a root's object, or nothing when the root is absent or not an object |
| NginxMetrics.Truncate | integrations/nginx/src/metrics.go:120 | `int(f)`: rounds toward zero |
| NginxMetrics.NameInverse | integrations/nginx/src/metrics.go:120 | the key can be read back from "root.key" |
| NginxMetrics.PrefixedAt | integrations/nginx/src/metrics.go:119-121 | each child k of a root is stored as "root.k" holding the truncated number |
| NginxMetrics.GetPlusMetrics | integrations/nginx/src/metrics.go:101-126 | `getPlusMetrics` returns exactly `PlusMetrics`: the decode error, a panic when a child is not a number, otherwise the flattened roots, version and edition |
| NginxMetrics.FlattenRootOf | integrations/nginx/src/metrics.go:113-122 | one root of the loop: a panic only when a child is not a number; otherwise the bag flattened up to this root |
| NginxMetrics.FlattenRoot | integrations/nginx/src/metrics.go:119-121 | the inner loop fails exactly when some child is not a float64; otherwise it adds every child under "root.k" |
| NginxMetrics.FlattenChild | integrations/nginx/src/metrics.go:120 | one child added under its name |
| NginxMetrics.RootNamesApart | integrations/nginx/src/metrics.go:120-124 | no "connections.*" or "requests.*" name is "version" or "edition" |
| NginxMetrics.FlatRoots | integrations/nginx/src/metrics.go:111-122 | without a panic, both roots hold only numbers and the flattened bag is the union of the two prefixed roots |
| NginxMetrics.PlusMetricsFlattened | integrations/nginx/src/metrics.go:119-121 | every child of either root appears as "root.k" holding its truncated value |
| NginxMetrics.PlusMetricsKeys | integrations/nginx/src/metrics.go:111-125 | the keys are exactly version, edition and "root.k" for the children of the two roots; non-object roots contribute nothing |
| NginxMetrics.PlusMetricsVersion | integrations/nginx/src/metrics.go:123-124 | version is nginx_version (nil when absent) and edition is "plus" |
| NginxMetrics.PopulateMetrics | integrations/nginx/src/metrics.go:128-158 | the given table populated with only int functions accepted; the result is always nil |
| NginxMetrics.GetMetricsData | integrations/nginx/src/metrics.go:160-186 | the fetch error; else the Plus table for content type exactly "application/json", the standard table otherwise with version = Server header without "nginx/"; a failing status page panics on the nil map; otherwise the sample is populated |
| NginxMetrics.ServerVersionExample | integrations/nginx/src/metrics.go:178 | the Server header "nginx/1.13.3" gives version "1.13.3" |
| CassandraMetrics.AttrStart | integrations/cassandra/src/metrics.go:139 | the leftmost position where `,?attr=.*$` matches, or the length when it matches nowhere |
| CassandraMetrics.StripAttr | integrations/cassandra/src/metrics.go:142 | `ReplaceAllString(query, "")`: the text before the leftmost match, where no earlier position matches |
| CassandraMetrics.StripAttrUnchanged | integrations/cassandra/src/metrics.go:142 | a query is unchanged exactly when the expression matches nowhere in it |
| CassandraMetrics.StripAttrIdempotent | integrations/cassandra/src/metrics.go:142 | stripping twice is stripping once |
| CassandraMetrics.AttrFreeUnchanged | integrations/cassandra/src/metrics.go:139-142 | a text without "attr=" is unchanged |
| CassandraMetrics.AttrFreePieces | integrations/cassandra/src/metrics.go:115-129 | '='-joined pieces without '=' and not ending in "attr" hold no "attr=" |
| CassandraMetrics.QueriesArePatterns | integrations/cassandra/src/metrics.go:115-142 | all thirteen JMX patterns are queried exactly as written: none has an attribute suffix for `,?attr=.*$` to remove |
| CassandraMetrics.Queries | integrations/cassandra/src/metrics.go:141-142 | one query per pattern, in order, each the stripped pattern |
| CassandraMetrics.Version | integrations/cassandra/src/metrics.go:159-180 | "Cant fetch Cassandra version" on a failed command or output that does not split into exactly two parts on ':' (one ':' exactly); otherwise success |
| CassandraMetrics.VersionOfLine | integrations/cassandra/src/metrics.go:174-179 | "head:version" gives the trimmed version |
| CassandraMetrics.GetMetrics | integrations/cassandra/src/metrics.go:131-157 | `getMetrics` returns exactly `Collected` over the thirteen patterns |
| CassandraMetrics.MergeInto | integrations/cassandra/src/metrics.go:147-149 | copying a query result into the metrics: later keys overwrite |
| CassandraMetrics.MergedOk | integrations/cassandra/src/metrics.go:141-150 | the merge succeeds exactly when every query succeeds |
| CassandraMetrics.MergedFirstError | integrations/cassandra/src/metrics.go:143-146 | a failed merge reports the error of the first failing query, all earlier ones having succeeded |
| CassandraMetrics.MergedKeys | integrations/cassandra/src/metrics.go:147-149 | the merged keys are the earlier ones and those of every query result |
| CassandraMetrics.MergedLastWins | integrations/cassandra/src/metrics.go:141-150 | a key holds the value from the last query that returned it |
| CassandraMetrics.MergedUntouched | integrations/cassandra/src/metrics.go:141-150 | a key no query returns keeps its value |
| CassandraMetrics.OpenErrorFirst | integrations/cassandra/src/metrics.go:132-135 | the JMX open error aborts before any query |
| CassandraMetrics.CollectedOk | integrations/cassandra/src/metrics.go:131-157 | success exactly when the open, every query and the version succeed; a version failure reports the version error |
| CassandraMetrics.CollectedVersion | integrations/cassandra/src/metrics.go:152 | "version" holds the version, written last |
| CassandraMetrics.CollectedKeys | integrations/cassandra/src/metrics.go:141-150 | every other key is one some query returned |
| CassandraMetrics.CollectedLastWins | integrations/cassandra/src/metrics.go:141-150 | every other key holds the value from the last query that returned it |
| CassandraMetrics.PopulateMetrics | integrations/cassandra/src/metrics.go:182-211 | the table populated with float64 functions accepted |
| CassandraInventory.NestedItemContents | integrations/cassandra/src/inventory.go:29-33 | the item of a nested mapping holds exactly its pairs |
| CassandraInventory.PopulateInventory | integrations/cassandra/src/inventory.go:26-41 | every non-list raw entry's item replaces what was under its key; lists and absent keys leave items unchanged; the result is always nil |
| CassandraInventory.NestedFields | integrations/cassandra/src/inventory.go:30-33 | the inner loop builds the nested mapping's item |
| CassandraInventory.InventoryFromContents | integrations/cassandra/src/inventory.go:27-39 | a nested mapping's key holds exactly its pairs, a scalar's key exactly {"value": v}, a list's key and absent keys keep their items |
| CassandraInventory.KeptKeys | integrations/cassandra/src/inventory.go:27-39 | without lists, every raw key gets an item |
| CassandraInventory.ListsLeaveInventory | integrations/cassandra/src/inventory.go:34-35 | lists alone change nothing |
| PyExample.PluginData.constructor | integrations/example/python/py-example-plugin.py:10-17 | the three identifying fields, status "OK", empty inventory, metrics and events |
| PyExample.PluginData.AddInventory | integrations/example/python/py-example-plugin.py:19-20 | the inventory becomes `SetField` of the old one: an absent item is created as {key: value}, a present one keeps its other keys, other items are unchanged; nothing else changes |
| PyExample.PluginData.AddMetric | integrations/example/python/py-example-plugin.py:22-23 | the metric is appended at the end, earlier ones unchanged and in order |
| PyExample.SetFieldOverwrites | integrations/example/python/py-example-plugin.py:20 | setting the same key of the same item twice keeps only the later value |

## Left out

- Network and process I/O are parameters: the HTTP response (status, headers, body), the JMX connection and query results, the outputs of `nodetool`, `httpd -M` and `httpd -V`, the SQL rows behind `dataSource`, the YAML configuration file. Cassandra's `getInventory` (file read and YAML decode) is therefore not modelled.
- The metric set's write (`AddMetric`/`SetMetric`, which computes rates through the cache) is an abstract `Write` function that either stores a value or fails; `cache.Save`, `cache.Status`, `args.SetupArgs`, JSON marshalling and logging are parameters or left out.
- The Go regexp engine is not modelled: the NGINX status expressions are token matchers (literal, `\s*`, `\s+`, a `\d+` group) and `,?attr=.*$` is the string function `StripAttr`.
- Entry-point glue is not modelled: the `main` functions of apache.go, nginx.go, cassandra.go and go-example-plugin.go and the Python `__main__` block (argument parsing, random values, printing). Functions cassandra.go calls but no shown file defines are not part of this model.
- Float64 rounding is not modelled: finite float64 values are exact reals, so `ParseFloat` returns the literal's exact value and the MySQL ratios are exact quotients; hexadecimal and underscore forms of float literals are not modelled.
- NginxMetrics.Truncate: states Go's `int(f)` only for values in range; an out-of-range conversion is implementation-specific in Go.
- NginxMetrics.GetPlusMetrics: requires the decoded JSON numbers under the two roots to be finite, as the JSON decoder guarantees; it is not proved from a model of the decoder.
- CassandraMetrics.PopulateMetrics: takes the table as a parameter; the integration passes `MetricsDefinition`, whose entries are not reasoned about.
- CassandraInventory.PopulateInventory: requires every nested key to be a string, since the `subk.(string)` assertion panics otherwise.
- CassandraInventory.NestedFields: carries the same requirement that every nested key is a string; the panic on a non-string key is not modelled.
- ApacheInventory.GetModules: requires every module line to have a second field of at least seven characters, since the slice panics otherwise; the shared `modulesValue` map that all module items alias is modelled as one value copied into each item.
- ApacheInventory.GetVersion: requires the first version line to contain ':', since the index `[1]` panics otherwise.
- ApacheInventory.ModuleKey: requires a module line with a second space-separated field of at least seven characters; the index `[1]` and slice `[:len-7]` panics on other lines are not modelled.
- ApacheInventory.ModuleEntry: requires the same of a line containing "_module", for the same reason.
- ApacheInventory.FindVersion: requires the first line containing "Server version" to contain ':'; the index `[1]` panic on such a line without ':' is not modelled.
- ApacheInventory.GetInventory: carries the requirements of `GetModules` and `GetVersion` on the two command outputs, so neither panic is modelled.
- Strings are sequences of characters, whereas Go strings are bytes: `len(scoreboard)` (integrations/apache/src/metrics.go:96) and the slice `moduleName[:len(moduleName)-7]` (integrations/apache/src/inventory.go:68) count bytes, so `ApacheMetrics.TotalWorkers` and `ApacheInventory.ModuleKey` agree with Go only on ASCII text, as Apache's scoreboard letters and module names are; `strings.Count` with a one-letter pattern counts the same in both.
- MysqlMain.Run: takes the four metric tables as a parameter instead of fixing them to the constants of metrics.go.
- PyExample.PluginData.AddMetric: Python's aliasing of the appended dictionary (later changes to it show through) is not modelled; values are the Go-side `Value` type.
- The cassandra_test.go populateMetrics test calls a three-argument `populateMetrics` that the shown source does not define; it is not modelled. The inventory test example there is covered only by the general `InventoryFromContents`.
- Apache's worker-status test scoreboard (W gives 2, C gives 0) is covered by the general `WorkerStatus` contract, not by a separate example.

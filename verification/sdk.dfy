/**
 * The integration SDK's output object (`sdk/data.go`): the `Integration`
 * that collects metric sets, inventory and events and publishes them as
 * one JSON document. The file holds an unresolved merge conflict; where
 * the two sides differ, both are modelled and the upstream one is named
 * `...Upstream`.
 */
module Sdk {
  import opened Wrappers
  import opened Values

  /** The metric kinds the definition tables use: `metric.GAUGE`, `metric.COUNTER`, `metric.ATTRIBUTE`. */
  datatype SourceType = Gauge | Counter | Attribute

  /**
   * `MetricSet.AddMetric` (upstream: `SetMetric`), whose package is not part
   * of this model: for a name, a raw value and a kind, the value the set then
   * holds under that name, or None when the call reports an error.
   */
  type Write = (string, Value, SourceType) -> Option<Value>

  /** A single-shot event. */
  type Event = map<string, Value>

  /** A metric set: the sample's event type and provider, and the metrics stored so far. */
  class MetricSet {
    const eventType: string
    /** HEAD creates a set with a provider; upstream does not. */
    const provider: Option<string>
    var metrics: map<string, Value>

    constructor (eventType: string, provider: Option<string>)
      ensures this.eventType == eventType && this.provider == provider
      ensures metrics == map[]
    {
      this.eventType := eventType;
      this.provider := provider;
      metrics := map[];
    }

    /** One metric write: the value `write` reports is stored, and an error changes nothing. */
    method AddMetric(name: string, value: Value, kind: SourceType, write: Write) returns (failed: bool)
      modifies this
      ensures failed <==> write(name, value, kind).None?
      ensures !failed ==> metrics == old(metrics)[name := write(name, value, kind).value]
      ensures failed ==> metrics == old(metrics)
    {
      match write(name, value, kind)
      case None =>
        failed := true;
      case Some(stored) =>
        metrics := metrics[name := stored];
        failed := false;
    }
  }

  /**
   * An inventory: item key to item. Upstream this is `sdk.Inventory` with a
   * `SetItem` method; on the HEAD side the same shape is the map
   * `map[string]sdk.Inventory` that the integrations assign into directly.
   */
  class Inventory {
    var items: map<string, Item>

    constructor ()
      ensures items == map[]
    {
      items := map[];
    }

    /** Upstream `SetItem`: sets one field of one item, creating the item when it is missing. */
    method SetItem(key: string, field: string, value: Value)
      modifies this
      ensures items == SetField(old(items), key, field, value)
    {
      if key in items {
        items := items[key := items[key][field := value]];
      } else {
        items := items[key := map[field := value]];
      }
    }
  }

  /** The prefix `toJSON` puts before a marshalling error. */
  const MarshalErrorPrefix := "Error marshalling to JSON: "

  /**
   * `toJSON`, after the (not modelled) marshalling step: an error is wrapped
   * with `MarshalErrorPrefix`; the document "null" becomes "[]"; any other
   * document passes through.
   */
  function ToJson(marshalled: Result<string, string>): (r: Result<string, string>)
    ensures r.Ok? <==> marshalled.Ok?
    ensures r.Err? ==> r.error == MarshalErrorPrefix + marshalled.error
    ensures r.Ok? ==> r.value != "null"
    ensures r.Ok? && marshalled.value != "null" ==> r.value == marshalled.value
  {
    match marshalled
    case Err(e) => Err(MarshalErrorPrefix + e)
    case Ok(document) => if document == "null" then Ok("[]") else Ok(document)
  }

  /**
   * What `toJSON` returns tells the marshalling outcome apart: two errors
   * read the same only when the marshaller's errors were the same, and two
   * documents only when they were the same or were "null" and "[]".
   */
  lemma ToJsonDistinguishes(a: Result<string, string>, b: Result<string, string>)
    ensures a.Err? && b.Err? ==> (ToJson(a) == ToJson(b) <==> a == b)
    ensures a.Ok? && b.Ok? ==>
      (ToJson(a) == ToJson(b) <==> a == b || (a.value in {"null", "[]"} && b.value in {"null", "[]"}))
    ensures a.Ok? != b.Ok? ==> ToJson(a) != ToJson(b)
  {
    if a.Err? && b.Err? && ToJson(a) == ToJson(b) {
      var n := |MarshalErrorPrefix|;
      assert a.error == (MarshalErrorPrefix + a.error)[n..];
      assert b.error == (MarshalErrorPrefix + b.error)[n..];
    }
  }

  /** What the integration program prints. */
  class Integration {
    const name: string
    const protocolVersion: string
    const integrationVersion: string
    const prettyOutput: bool
    var metrics: seq<MetricSet>
    var inventory: Inventory
    var events: seq<Event>

    constructor (name: string, version: string, pretty: bool)
      ensures this.name == name && protocolVersion == "1" && integrationVersion == version
      ensures prettyOutput == pretty
      ensures metrics == [] && events == []
      ensures fresh(inventory) && inventory.items == map[]
    {
      this.name := name;
      protocolVersion := "1";
      integrationVersion := version;
      prettyOutput := pretty;
      metrics := [];
      events := [];
      inventory := new Inventory();
    }

    /** HEAD `NewMetricSet(eventType, provider)`: a new empty set, appended and returned. */
    method NewMetricSet(eventType: string, provider: string) returns (ms: MetricSet)
      modifies this
      ensures fresh(ms) && ms.eventType == eventType && ms.provider == Some(provider) && ms.metrics == map[]
      ensures metrics == old(metrics) + [ms]
      ensures inventory == old(inventory) && events == old(events)
    {
      ms := new MetricSet(eventType, Some(provider));
      metrics := metrics + [ms];
    }

    /** Upstream `NewMetricSet(eventType)`: the same, with no provider. */
    method NewMetricSetUpstream(eventType: string) returns (ms: MetricSet)
      modifies this
      ensures fresh(ms) && ms.eventType == eventType && ms.provider == None && ms.metrics == map[]
      ensures metrics == old(metrics) + [ms]
      ensures inventory == old(inventory) && events == old(events)
    {
      ms := new MetricSet(eventType, None);
      metrics := metrics + [ms];
    }

    /**
     * HEAD `Publish`: the cache save error, else the `toJSON` error, else the
     * document printed once. `saveError` is the outcome of `cache.Save` and
     * `marshal` the JSON marshaller for the current contents, given the
     * pretty flag. Nothing in the integration changes.
     */
    method Publish(saveError: Option<string>, marshal: bool -> Result<string, string>)
      returns (err: Option<string>, printed: Option<string>)
      ensures saveError.Some? ==> err == saveError && printed == None
      ensures saveError.None? && ToJson(marshal(prettyOutput)).Err? ==>
        err == Some(ToJson(marshal(prettyOutput)).error) && printed == None
      ensures saveError.None? && ToJson(marshal(prettyOutput)).Ok? ==>
        err == None && printed == Some(ToJson(marshal(prettyOutput)).value)
      ensures printed.Some? <==> err.None?
    {
      if saveError.Some? {
        return saveError, None;
      }
      var output := ToJson(marshal(prettyOutput));
      if output.Err? {
        return Some(output.error), None;
      }
      return None, Some(output.value);
    }

    /**
     * Upstream `Publish`: as on the HEAD side, and after printing, `Clear`;
     * on an error nothing changes.
     */
    method PublishUpstream(saveError: Option<string>, marshal: bool -> Result<string, string>)
      returns (err: Option<string>, printed: Option<string>)
      modifies this
      ensures saveError.Some? ==> err == saveError && printed == None
      ensures saveError.None? && ToJson(marshal(prettyOutput)).Err? ==>
        err == Some(ToJson(marshal(prettyOutput)).error) && printed == None
      ensures saveError.None? && ToJson(marshal(prettyOutput)).Ok? ==>
        err == None && printed == Some(ToJson(marshal(prettyOutput)).value)
      ensures err.Some? ==> metrics == old(metrics) && inventory == old(inventory) && events == old(events)
      ensures err.None? ==> metrics == [] && events == [] && fresh(inventory) && inventory.items == map[]
    {
      if saveError.Some? {
        return saveError, None;
      }
      var output := ToJson(marshal(prettyOutput));
      if output.Err? {
        return Some(output.error), None;
      }
      printed := Some(output.value);
      Clear();
      err := None;
    }

    /** Upstream `Clear`: a new empty inventory, no metric sets, no events. */
    method Clear()
      modifies this
      ensures metrics == [] && events == []
      ensures fresh(inventory) && inventory.items == map[]
    {
      inventory := new Inventory();
      metrics := [];
      events := [];
    }
  }

  /**
   * `NewIntegration`: fails with the argument setup error, else with the
   * cache status error, else returns an empty integration with the given
   * name and version. `setupError`, `pretty` and `cacheError` stand for
   * what `args.SetupArgs`, the parsed default arguments and `cache.Status`
   * report; their packages are not part of this model.
   */
  method NewIntegration(name: string, version: string, setupError: Option<string>, pretty: bool, cacheError: Option<string>)
    returns (r: Result<Integration, string>)
    ensures setupError.Some? ==> r == Err(setupError.value)
    ensures setupError.None? && cacheError.Some? ==> r == Err(cacheError.value)
    ensures setupError.None? && cacheError.None? ==> r.Ok?
    ensures r.Ok? ==> fresh(r.value) && fresh(r.value.inventory)
    ensures r.Ok? ==> r.value.name == name && r.value.protocolVersion == "1" && r.value.integrationVersion == version
    ensures r.Ok? ==> r.value.prettyOutput == pretty
    ensures r.Ok? ==> r.value.metrics == [] && r.value.events == [] && r.value.inventory.items == map[]
  {
    if setupError.Some? {
      return Err(setupError.value);
    }
    if cacheError.Some? {
      return Err(cacheError.value);
    }
    var integration := new Integration(name, version, pretty);
    return Ok(integration);
  }
}

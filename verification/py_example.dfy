/**
 * The Python example plugin's output object, `PluginData`
 * (`integrations/example/python/py-example-plugin.py`): the identifying
 * fields, the status, and the inventory, metrics and events that the plugin
 * fills in place before printing the object as JSON.
 */
module PyExample {
  import opened Values

  class PluginData {
    const name: string
    const protocolVersion: string
    const pluginVersion: string
    var status: string
    /** Item name to item, as `addInventory` builds it. */
    var inventory: map<string, Item>
    /** The metric dictionaries, in the order they were added. */
    var metrics: seq<Bag>
    var events: seq<Bag>

    /** `__init__`: the three identifying fields, status "OK", and nothing collected yet. */
    constructor (name: string, protocolVersion: string, pluginVersion: string)
      ensures this.name == name && this.protocolVersion == protocolVersion && this.pluginVersion == pluginVersion
      ensures status == "OK"
      ensures inventory == map[] && metrics == [] && events == []
    {
      this.name := name;
      this.protocolVersion := protocolVersion;
      this.pluginVersion := pluginVersion;
      status := "OK";
      inventory := map[];
      metrics := [];
      events := [];
    }

    /**
     * `addInventory`: `setdefault` creates the item empty when it is
     * missing, then the one key is set in it.
     */
    method AddInventory(item: string, key: string, value: Value)
      modifies this
      ensures inventory == SetField(old(inventory), item, key, value)
      ensures metrics == old(metrics) && events == old(events) && status == old(status)
    {
      if item !in inventory {
        inventory := inventory[item := map[]];
      }
      inventory := inventory[item := inventory[item][key := value]];
    }

    /** `addMetric`: the dictionary appended after the earlier ones. */
    method AddMetric(metric: Bag)
      modifies this
      ensures metrics == old(metrics) + [metric]
      ensures inventory == old(inventory) && events == old(events) && status == old(status)
    {
      metrics := metrics + [metric];
    }
  }

  /** Setting the same field again keeps only the later value. */
  lemma SetFieldOverwrites(items: map<string, Item>, item: string, key: string, first: Value, second: Value)
    ensures SetField(SetField(items, item, key, first), item, key, second) == SetField(items, item, key, second)
  {
    var a := SetField(SetField(items, item, key, first), item, key, second);
    var b := SetField(items, item, key, second);
    assert a[item].Keys == b[item].Keys;
    assert a[item] == b[item];
  }
}

/**
 * The Cassandra integration's `populateInventory`
 * (`integrations/cassandra/src/inventory.go`): each entry of the decoded
 * YAML configuration becomes an inventory item. A nested mapping becomes
 * an item holding its pairs, a list is skipped, and any other value
 * becomes the item {"value": v}.
 */
module CassandraInventory {
  import opened Wrappers
  import opened Values
  import opened Sdk

  /**
   * The type assertion `subk.(string)` panics on a nested key that is not
   * a string, so every nested mapping must have string keys.
   */
  predicate StringKeys(raw: Bag) {
    forall k | k in raw && raw[k].AnyMap? :: NestedKeysAreStrings(raw[k].entries)
  }

  predicate NestedKeysAreStrings(entries: map<Value, Value>) {
    forall sk | sk in entries :: sk.Str?
  }

  /** The item a nested mapping becomes: each string key with its value. */
  function NestedItem(entries: map<Value, Value>): Item
    requires NestedKeysAreStrings(entries)
  {
    map sk | sk in entries :: sk.s := entries[sk]
  }

  /** The item holds exactly the nested pairs. */
  lemma NestedItemContents(entries: map<Value, Value>, field: string)
    requires NestedKeysAreStrings(entries)
    ensures field in NestedItem(entries) <==> Str(field) in entries
    ensures field in NestedItem(entries) ==> NestedItem(entries)[field] == entries[Str(field)]
  {
    if Str(field) in entries {
      assert Str(field).s == field;
    }
  }

  /** A raw value that produces an item: anything but a list. */
  predicate Kept(v: Value) {
    !v.List?
  }

  /** The item a kept raw value becomes. */
  function ItemOf(v: Value): Item
    requires Kept(v) && (v.AnyMap? ==> NestedKeysAreStrings(v.entries))
  {
    if v.AnyMap? then NestedItem(v.entries) else map["value" := v]
  }

  /**
   * The inventory after `populateInventory`: every kept raw entry's item
   * replaces whatever was under its key; every other item stays.
   */
  ghost function InventoryFrom(items: map<string, Item>, raw: Bag): map<string, Item>
    requires StringKeys(raw)
  {
    map k | k in items.Keys + raw.Keys && (k in items || Kept(raw[k])) ::
      if k in raw && Kept(raw[k]) then ItemOf(raw[k]) else items[k]
  }

  /**
   * `populateInventory`: the raw entries in Go's map order, each kept one
   * written under its key. The result is always nil.
   */
  method PopulateInventory(inventory: Inventory, raw: Bag) returns (err: Option<string>)
    requires StringKeys(raw)
    modifies inventory
    ensures err == None
    ensures inventory.items == InventoryFrom(old(inventory.items), raw)
  {
    ghost var start := inventory.items;
    var remaining := raw.Keys;
    while remaining != {}
      invariant remaining <= raw.Keys
      invariant forall k :: k in inventory.items <==> k in start || (k in raw && Kept(raw[k]) && k !in remaining)
      invariant forall k | k in inventory.items ::
        inventory.items[k] == if k in raw && Kept(raw[k]) && k !in remaining then ItemOf(raw[k]) else start[k]
      decreases remaining
    {
      var key :| key in remaining;
      var value := raw[key];
      if value.AnyMap? {
        var item := NestedFields(value.entries);
        inventory.items := inventory.items[key := item];
      } else if value.List? {
        // lists are not included
      } else {
        inventory.items := inventory.items[key := map["value" := value]];
      }
      remaining := remaining - {key};
    }
    InventoryFromAll(inventory.items, start, raw);
    return None;
  }

  /**
   * The inner loop: a fresh item (`sdk.Inventory{}`) that receives every
   * nested pair under its key asserted to a string.
   */
  method NestedFields(entries: map<Value, Value>) returns (item: Item)
    requires NestedKeysAreStrings(entries)
    ensures item == NestedItem(entries)
  {
    item := map[];
    var remaining := entries.Keys;
    while remaining != {}
      invariant remaining <= entries.Keys
      invariant forall f :: f in item <==> Str(f) in entries && Str(f) !in remaining
      invariant forall f | f in item :: item[f] == entries[Str(f)]
      decreases remaining
    {
      var subKey :| subKey in remaining;
      item := item[subKey.s := entries[subKey]];
      remaining := remaining - {subKey};
    }
    NestedItemAll(item, entries);
  }

  /** An item holding exactly the nested pairs is `NestedItem`. */
  lemma NestedItemAll(item: Item, entries: map<Value, Value>)
    requires NestedKeysAreStrings(entries)
    requires forall f :: f in item <==> Str(f) in entries
    requires forall f | f in item :: item[f] == entries[Str(f)]
    ensures item == NestedItem(entries)
  {
    forall f
      ensures f in item <==> f in NestedItem(entries)
      ensures f in item ==> item[f] == NestedItem(entries)[f]
    {
      NestedItemContents(entries, f);
    }
  }

  /** A map holding every kept raw entry's item and the old item elsewhere is `InventoryFrom`. */
  lemma InventoryFromAll(items: map<string, Item>, start: map<string, Item>, raw: Bag)
    requires StringKeys(raw)
    requires forall k :: k in items <==> k in start || (k in raw && Kept(raw[k]))
    requires forall k | k in items :: items[k] == if k in raw && Kept(raw[k]) then ItemOf(raw[k]) else start[k]
    ensures items == InventoryFrom(start, raw)
  {
  }

  /**
   * A nested mapping's key holds exactly its nested pairs, a scalar's key
   * holds exactly {"value": v}, each replacing any earlier item; a list's
   * key and every key absent from the raw bag keep what they had.
   */
  lemma InventoryFromContents(items: map<string, Item>, raw: Bag, k: string)
    requires StringKeys(raw)
    ensures k in InventoryFrom(items, raw) <==> k in items || (k in raw && !raw[k].List?)
    ensures k in raw && raw[k].AnyMap? ==>
      forall f :: (f in InventoryFrom(items, raw)[k] <==> Str(f) in raw[k].entries)
    ensures k in raw && raw[k].AnyMap? ==>
      forall f | f in InventoryFrom(items, raw)[k] :: InventoryFrom(items, raw)[k][f] == raw[k].entries[Str(f)]
    ensures k in raw && !raw[k].AnyMap? && !raw[k].List? ==> InventoryFrom(items, raw)[k] == map["value" := raw[k]]
    ensures (k !in raw || raw[k].List?) && k in items ==> InventoryFrom(items, raw)[k] == items[k]
  {
    if k in raw && raw[k].AnyMap? {
      forall f
        ensures f in InventoryFrom(items, raw)[k] <==> Str(f) in raw[k].entries
        ensures f in InventoryFrom(items, raw)[k] ==> InventoryFrom(items, raw)[k][f] == raw[k].entries[Str(f)]
      {
        NestedItemContents(raw[k].entries, f);
      }
    }
  }

  /** Without lists, every raw key gets an item. */
  lemma KeptKeys(items: map<string, Item>, raw: Bag)
    requires StringKeys(raw)
    requires forall k | k in raw :: Kept(raw[k])
    ensures InventoryFrom(items, raw).Keys == items.Keys + raw.Keys
  {
  }

  /** A list never produces an item, so raw lists alone leave the inventory as it was. */
  lemma ListsLeaveInventory(items: map<string, Item>, raw: Bag)
    requires forall k | k in raw :: raw[k].List?
    ensures InventoryFrom(items, raw) == items
  {
    assert (set k | k in raw && Kept(raw[k])) == {};
  }
}

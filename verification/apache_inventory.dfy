/**
 * The Apache integration's inventory side (`integrations/apache/src/inventory.go`):
 * the outputs of `httpd -M` (loaded modules) and `httpd -V` (compile
 * settings) are read line by line into inventory items.
 */
module ApacheInventory {
  import opened Wrappers
  import opened Values
  import opened GoStrings
  import opened LineReader
  import opened Sdk

  /** The item every enabled module is stored with. */
  const EnabledItem: Item := map["value" := Str("enabled")]

  /** A line of `httpd -M` that names a module. */
  predicate IsModuleLine(line: string) {
    Contains(line, "_module")
  }

  /** A module line the parser can slice: a second space-separated field at least 7 characters long. */
  predicate WellFormedModuleLine(line: string) {
    var fields := Split(line, ' ');
    |fields| >= 2 && |fields[1]| >= 7
  }

  /** The inventory key of a module line: "modules/" and the second field without its "_module" suffix. */
  function ModuleKey(line: string): (key: string)
    requires WellFormedModuleLine(line)
    ensures key == "modules/" + Split(line, ' ')[1][..|Split(line, ' ')[1]| - 7]
    ensures |key| == |Split(line, ' ')[1]| + 1
  {
    var name := Split(line, ' ')[1];
    "modules/" + name[..|name| - 7]
  }

  /** The entry a line of `httpd -M` contributes. */
  function ModuleEntry(line: string): (e: Option<(string, Item)>)
    requires IsModuleLine(line) ==> WellFormedModuleLine(line)
    ensures e.Some? <==> IsModuleLine(line)
    ensures e.Some? ==> e.value == (ModuleKey(line), EnabledItem)
  {
    if IsModuleLine(line) then Some((ModuleKey(line), EnabledItem)) else None
  }

  /** Every module line of `lines` can be sliced (otherwise the Go code panics on the slice). */
  predicate ModuleLinesWellFormed(lines: seq<string>) {
    forall i | 0 <= i < |lines| :: IsModuleLine(lines[i]) ==> WellFormedModuleLine(lines[i])
  }

  /** The inventory after the module lines: each one stores its key with `EnabledItem`. */
  function AddModules(items: map<string, Item>, lines: seq<string>): map<string, Item>
    requires ModuleLinesWellFormed(lines)
  {
    Collect(items, lines, ModuleEntry)
  }

  /**
   * `getModules`: every complete line containing "_module" becomes an
   * enabled module; the read error, if the stream fails, is returned after
   * the complete lines are stored.
   */
  method GetModules(input: Input, inventory: Inventory) returns (err: Option<string>)
    requires ModuleLinesWellFormed(CompleteLines(input))
    modifies inventory
    ensures inventory.items == AddModules(old(inventory.items), CompleteLines(input))
    ensures err == (if input.end.Failure? then Some(input.end.message) else None)
  {
    var rest := input;
    while true
      invariant rest.end == input.end
      invariant ModuleLinesWellFormed(CompleteLines(rest))
      invariant AddModules(inventory.items, CompleteLines(rest)) == AddModules(old(inventory.items), CompleteLines(input))
      decreases |rest.text|
    {
      var read := ReadString(rest);
      if read.err == Some(EOF) {
        break;
      }
      if read.err.Some? {
        return Some(read.err.value.message);
      }
      assert CompleteLines(rest) == [read.line] + CompleteLines(read.rest);
      if Contains(read.line, "_module") {
        var fields := Split(read.line, ' ');
        var moduleName := fields[1];
        inventory.items := inventory.items["modules/" + moduleName[..|moduleName| - 7] := EnabledItem];
      }
      rest := read.rest;
    }
    return None;
  }

  /** A key is a module key exactly when some module line produces it, or it was there before. */
  lemma ModulesKeys(items: map<string, Item>, lines: seq<string>, key: string)
    requires ModuleLinesWellFormed(lines)
    ensures key in AddModules(items, lines) <==>
      key in items || exists i | 0 <= i < |lines| :: IsModuleLine(lines[i]) && ModuleKey(lines[i]) == key
  {
    CollectKeys(items, lines, ModuleEntry, key);
  }

  /** Every module line's key holds `EnabledItem` afterwards: all modules share the one item. */
  lemma ModulesEnabled(items: map<string, Item>, lines: seq<string>, i: nat)
    requires ModuleLinesWellFormed(lines)
    requires i < |lines| && IsModuleLine(lines[i])
    requires ModuleKey(lines[i]) in items ==> items[ModuleKey(lines[i])] == EnabledItem
    ensures ModuleKey(lines[i]) in AddModules(items, lines)
    ensures AddModules(items, lines)[ModuleKey(lines[i])] == EnabledItem
  {
    assert ModuleEntry(lines[i]).Some?;
    CollectSameValue(items, lines, ModuleEntry, ModuleKey(lines[i]), EnabledItem);
  }

  /** Keys no module line produces are left as they were. */
  lemma ModulesUntouched(items: map<string, Item>, lines: seq<string>, key: string)
    requires ModuleLinesWellFormed(lines)
    requires key in items
    requires forall i | 0 <= i < |lines| :: IsModuleLine(lines[i]) ==> ModuleKey(lines[i]) != key
    ensures key in AddModules(items, lines) && AddModules(items, lines)[key] == items[key]
  {
    CollectUntouched(items, lines, ModuleEntry, key);
  }

  /** A line of `httpd -V` that carries the server version. */
  predicate IsVersionLine(line: string) {
    Contains(line, "Server version")
  }

  /** The index of the first version line, or the number of lines when there is none. */
  function FirstVersionLine(lines: seq<string>): (i: nat)
    ensures i <= |lines|
    ensures i < |lines| ==> IsVersionLine(lines[i])
    ensures forall j | 0 <= j < i :: !IsVersionLine(lines[j])
  {
    if lines == [] then 0
    else if IsVersionLine(lines[0]) then 0
    else
      var i := 1 + FirstVersionLine(lines[1..]);
      assert forall j | 1 <= j < i :: lines[j] == lines[1..][j - 1];
      i
  }

  /** The first version line, if any, has a ':' (otherwise the Go code panics on the split). */
  predicate VersionLineWellFormed(lines: seq<string>) {
    var i := FirstVersionLine(lines);
    i < |lines| ==> ':' in lines[i]
  }

  /** The version text of the first version line: what lies between its first and second ':', trimmed. */
  function FindVersion(lines: seq<string>): (v: Option<string>)
    requires VersionLineWellFormed(lines)
    ensures v.None? <==> forall i | 0 <= i < |lines| :: !IsVersionLine(lines[i])
  {
    var i := FirstVersionLine(lines);
    if i == |lines| then None
    else
      assert multiset(lines[i])[':'] > 0;
      Some(TrimSpace(Split(lines[i], ':')[1]))
  }

  /** What `getVersion` leaves: the version found, or the read error when the stream fails first. */
  function VersionOf(input: Input): Result<Option<string>, string>
    requires VersionLineWellFormed(CompleteLines(input))
  {
    match FindVersion(CompleteLines(input))
    case Some(v) => Ok(Some(v))
    case None => if input.end.Failure? then Err(input.end.message) else Ok(None)
  }

  /** The inventory with the version item added, when a version was found. */
  function AddVersion(items: map<string, Item>, version: Option<string>): (r: map<string, Item>)
    ensures version.None? ==> r == items
    ensures version.Some? ==> r == items["version" := map["value" := Str(version.value)]]
  {
    if version.Some? then items["version" := map["value" := Str(version.value)]] else items
  }

  /**
   * `getVersion`: reads until the first line containing "Server version"
   * and stores {"value": version} under "version"; with no such line the
   * inventory is unchanged.
   */
  method GetVersion(input: Input, inventory: Inventory) returns (err: Option<string>)
    requires VersionLineWellFormed(CompleteLines(input))
    modifies inventory
    ensures VersionOf(input).Err? ==> err == Some(VersionOf(input).error) && inventory.items == old(inventory.items)
    ensures VersionOf(input).Ok? ==> err == None && inventory.items == AddVersion(old(inventory.items), VersionOf(input).value)
  {
    var rest := input;
    while true
      invariant rest.end == input.end
      invariant VersionLineWellFormed(CompleteLines(rest))
      invariant FindVersion(CompleteLines(rest)) == FindVersion(CompleteLines(input))
      invariant inventory.items == old(inventory.items)
      decreases |rest.text|
    {
      var read := ReadString(rest);
      if read.err.Some? {
        if read.err.value.Failure? {
          return Some(read.err.value.message);
        }
        return None;
      }
      VersionStep(CompleteLines(rest), read.line, CompleteLines(read.rest));
      if Contains(read.line, "Server version") {
        var parts := Split(read.line, ':');
        inventory.items := inventory.items["version" := map["value" := Str(TrimSpace(parts[1]))]];
        return None;
      }
      rest := read.rest;
    }
  }

  /** One line further: a version line settles the result, any other line passes the search on to the rest. */
  lemma VersionStep(lines: seq<string>, line: string, tail: seq<string>)
    requires lines == [line] + tail
    requires VersionLineWellFormed(lines)
    ensures IsVersionLine(line) ==> ':' in line && FindVersion(lines) == Some(TrimSpace(Split(line, ':')[1]))
    ensures !IsVersionLine(line) ==> VersionLineWellFormed(tail) && FindVersion(tail) == FindVersion(lines)
  {
    assert lines[0] == line && lines[1..] == tail;
  }

  /** The error `getInventory` reports when neither command yields anything. */
  const EmptyResult := "Empty result"

  /** What `getInventory` returns, from the two command outputs (each an output or an exec error). */
  function InventoryOf(modulesOutput: Result<string, string>, settingsOutput: Result<string, string>): Result<map<string, Item>, string>
    requires modulesOutput.Ok? ==> ModuleLinesWellFormed(CompleteLines(Input(modulesOutput.value, EOF)))
    requires settingsOutput.Ok? ==> VersionLineWellFormed(CompleteLines(Input(settingsOutput.value, EOF)))
  {
    if modulesOutput.Err? then Err(modulesOutput.error)
    else if settingsOutput.Err? then Err(settingsOutput.error)
    else
      var items := AddModules(map[], CompleteLines(Input(modulesOutput.value, EOF)));
      var items' := AddVersion(items, FindVersion(CompleteLines(Input(settingsOutput.value, EOF))));
      if items' == map[] then Err(EmptyResult) else Ok(items')
  }

  /**
   * `getInventory`: the module list, then the version, from the outputs of
   * the two commands read to their end; "Empty result" when nothing was
   * found. Running the commands is not modelled: their outputs are inputs.
   */
  method GetInventory(modulesOutput: Result<string, string>, settingsOutput: Result<string, string>)
    returns (r: Result<map<string, Item>, string>)
    requires modulesOutput.Ok? ==> ModuleLinesWellFormed(CompleteLines(Input(modulesOutput.value, EOF)))
    requires settingsOutput.Ok? ==> VersionLineWellFormed(CompleteLines(Input(settingsOutput.value, EOF)))
    ensures r == InventoryOf(modulesOutput, settingsOutput)
  {
    var inventory := new Inventory();
    if modulesOutput.Err? {
      return Err(modulesOutput.error);
    }
    var err := GetModules(Input(modulesOutput.value, EOF), inventory);
    assert err == None;  // a reader over a byte slice only ever ends in EOF
    if settingsOutput.Err? {
      return Err(settingsOutput.error);
    }
    err := GetVersion(Input(settingsOutput.value, EOF), inventory);
    assert err == None;
    if |inventory.items| == 0 {
      return Err(EmptyResult);
    }
    return Ok(inventory.items);
  }

  /** With output that holds neither a module line nor a version line, `getInventory` reports "Empty result". */
  lemma InventoryOfNothing(modulesOutput: string, settingsOutput: string)
    requires forall i | 0 <= i < |CompleteLines(Input(modulesOutput, EOF))| :: !IsModuleLine(CompleteLines(Input(modulesOutput, EOF))[i])
    requires forall i | 0 <= i < |CompleteLines(Input(settingsOutput, EOF))| :: !IsVersionLine(CompleteLines(Input(settingsOutput, EOF))[i])
    ensures VersionLineWellFormed(CompleteLines(Input(settingsOutput, EOF)))
    ensures InventoryOf(Ok(modulesOutput), Ok(settingsOutput)) == Err(EmptyResult)
  {
    var lines := CompleteLines(Input(modulesOutput, EOF));
    var items := AddModules(map[], lines);
    if items != map[] {
      var key :| key in items;
      ModulesKeys(map[], lines, key);
    }
  }
}

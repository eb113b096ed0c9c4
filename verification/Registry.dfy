/** The tool registry: a list of tools sorted by name beside a map from names to
    configurations. registry.go, and openapi.go's merge of loaded registries. */
module Registry {
  import opened Common
  import opened Text
  import opened SchemaProjection

  datatype InputSchema = InputSchema(properties: map<string, JsonSchema>, required: seq<string>, closed: bool)

  datatype Tool = Tool(
    name: string,
    title: string,
    description: string,
    input: InputSchema,
    output: Option<JsonSchema>)

  /** An entry of an endpoint's parameter map; `Unreadable` is a value that is
      not itself a map. */
  datatype Parameter = Unreadable | Parameter(location: string, required: bool)

  datatype Endpoint = Endpoint(
    host: string,
    httpMethod: string,
    pathTemplate: string,
    parameters: map<string, Parameter>,
    contentType: string)

  datatype ToolResponseConfig = ToolResponseConfig(useStructuredOutput: bool)

  datatype ToolConfig = ToolConfig(endpoint: Endpoint, response: ToolResponseConfig)

  datatype RegisterError = NilTool | NilConfig | InvalidName | AlreadyRegistered

  const MAX_TOOL_NAME_LENGTH := 128

  predicate IsNameChar(c: char) {
    'A' <= c <= 'Z' || 'a' <= c <= 'z' || '0' <= c <= '9' || c == '_' || c == '-' || c == '.'
  }

  predicate ValidToolName(name: string) {
    1 <= |name| <= MAX_TOOL_NAME_LENGTH && forall c :: c in name ==> IsNameChar(c)
  }

  // ------------------------------------------------------------ on values

  datatype Catalog = Catalog(tools: seq<Tool>, configs: map<string, ToolConfig>)

  const EMPTY := Catalog([], map[])

  ghost predicate Sorted(tools: seq<Tool>) {
    forall i, j :: 0 <= i < j < |tools| ==> Less(tools[i].name, tools[j].name)
  }

  /** The registry invariant: the list is strictly sorted, and the map has
      exactly the listed names, all of them valid. */
  ghost predicate Agrees(c: Catalog) {
    && Sorted(c.tools)
    && (forall t :: t in c.tools ==> t.name in c.configs && ValidToolName(t.name))
    && (forall n :: n in c.configs ==> exists t :: t in c.tools && t.name == n)
  }

  /** The position of the first tool whose name is not below `name`. */
  function Position(tools: seq<Tool>, name: string): (p: nat)
    ensures p <= |tools|
    ensures forall i :: 0 <= i < p ==> Less(tools[i].name, name)
    ensures p < |tools| ==> !Less(tools[p].name, name)
  {
    if tools == [] || !Less(tools[0].name, name) then 0 else 1 + Position(tools[1..], name)
  }

  function Insert(tools: seq<Tool>, tool: Tool): seq<Tool> {
    var p := Position(tools, tool.name);
    tools[..p] + [tool] + tools[p..]
  }

  /** Why a registration is refused, if it is, in the order of the checks. */
  function Refusal(c: Catalog, tool: Option<Tool>, config: Option<ToolConfig>): Option<RegisterError> {
    if tool.None? then Some(NilTool)
    else if config.None? then Some(NilConfig)
    else if !ValidToolName(tool.value.name) then Some(InvalidName)
    else if tool.value.name in c.configs then Some(AlreadyRegistered)
    else None
  }

  /** The catalog after an attempt to register; a refusal changes nothing. */
  function Registered(c: Catalog, tool: Option<Tool>, config: Option<ToolConfig>): Catalog {
    if Refusal(c, tool, config).Some? then c
    else Catalog(Insert(c.tools, tool.value), c.configs[tool.value.name := config.value])
  }

  datatype Entry = Entry(tool: Tool, config: ToolConfig)

  function RegisteredEntry(c: Catalog, e: Entry): Catalog {
    Registered(c, Some(e.tool), Some(e.config))
  }

  /** After registering the entries one after the other. */
  function RegisteredAll(c: Catalog, entries: seq<Entry>): Catalog {
    if entries == [] then c
    else RegisteredEntry(RegisteredAll(c, entries[..|entries| - 1]), entries[|entries| - 1])
  }

  /** The entry is in the catalog: its tool listed, its config under its name. */
  ghost predicate Holds(c: Catalog, e: Entry) {
    e.tool in c.tools && e.tool.name in c.configs && c.configs[e.tool.name] == e.config
  }

  // ------------------------------------------------------- the class itself

  /** slices.BinarySearchFunc by tool name. */
  method BinarySearch(tools: seq<Tool>, name: string) returns (position: nat, found: bool)
    requires Sorted(tools)
    ensures position == Position(tools, name)
    ensures found <==> exists t :: t in tools && t.name == name
  {
    var i, j := 0, |tools|;
    while i < j
      invariant 0 <= i <= j <= |tools|
      invariant forall k :: 0 <= k < i ==> Less(tools[k].name, name)
      invariant forall k :: j <= k < |tools| ==> !Less(tools[k].name, name)
    {
      var h := (i + j) / 2;
      if Less(tools[h].name, name) {
        forall k | 0 <= k < h ensures Less(tools[k].name, name) {
          LessIsTransitive(tools[k].name, tools[h].name, name);
        }
        i := h + 1;
      } else {
        forall k | h < k < |tools| ensures !Less(tools[k].name, name) {
          if Less(tools[k].name, name) {
            LessIsTransitive(tools[h].name, tools[k].name, name);
          }
        }
        j := h;
      }
    }
    position := i;
    found := i < |tools| && tools[i].name == name;
    LessIsStrict(name, name);
    if exists t :: t in tools && t.name == name {
      var k :| 0 <= k < |tools| && tools[k].name == name;
      if i < k {
        LessIsStrict(tools[i].name, name);
      }
    }
  }

  class ToolRegistry {
    var tools: seq<Tool>
    var configs: map<string, ToolConfig>

    function Value(): Catalog
      reads this
    {
      Catalog(tools, configs)
    }

    constructor ()
      ensures Value() == EMPTY
    {
      tools := [];
      configs := map[];
    }

    method Register(tool: Option<Tool>, config: Option<ToolConfig>) returns (err: Option<RegisterError>)
      requires Agrees(Value())
      modifies this
      ensures Agrees(Value())
      ensures err == Refusal(old(Value()), tool, config)
      ensures Value() == Registered(old(Value()), tool, config)
    {
      RegisterKeepsAgreement(Value(), tool, config);
      if tool.None? {
        return Some(NilTool);
      }
      if config.None? {
        return Some(NilConfig);
      }
      if !ValidToolName(tool.value.name) {
        return Some(InvalidName);
      }
      var position, registered := BinarySearch(tools, tool.value.name);
      if registered {
        return Some(AlreadyRegistered);
      }
      tools := tools[..position] + [tool.value] + tools[position..];
      configs := configs[tool.value.name := config.value];
      return None;
    }

    method GetConfig(name: string) returns (config: Option<ToolConfig>)
      requires Agrees(Value())
      ensures config.Some? <==> exists t :: t in tools && t.name == name
      ensures config.Some? ==> exists e :: Holds(Value(), e) && e.tool.name == name && e.config == config.value
    {
      config := if name in configs then Some(configs[name]) else None;
      if name in configs {
        ghost var t :| t in tools && t.name == name;
        assert Holds(Value(), Entry(t, configs[name]));
      }
    }

    /** The allowed names, and those of them that are not registered. */
    method ReadAllowlist(allowlist: seq<string>) returns (allowed: set<string>, missing: seq<string>)
      ensures allowed == set n | n in allowlist
      ensures forall n :: n in missing <==> n in allowlist && n !in configs
    {
      allowed, missing := {}, [];
      for i := 0 to |allowlist|
        invariant allowed == set n | n in allowlist[..i]
        invariant forall n :: n in missing <==> n in allowlist[..i] && n !in configs
      {
        allowed := allowed + {allowlist[i]};
        if allowlist[i] !in configs {
          missing := missing + [allowlist[i]];
        }
      }
      assert allowlist[..|allowlist|] == allowlist;
    }

    /** A new registry with the allowed tools only. `warned` says whether the
        "unexpected error" branch was taken. */
    method FilterByAllowlist(allowlist: seq<string>) returns (filtered: Option<ToolRegistry>, warned: bool)
      requires Agrees(Value())
      ensures filtered.None? <==> allowlist == [] || exists n :: n in allowlist && n !in configs
      ensures filtered.Some? ==> (
        && fresh(filtered.value)
        && Agrees(filtered.value.Value())
        && filtered.value.Value() == Restricted(Value(), set n | n in allowlist))
      ensures !warned
    {
      if |allowlist| == 0 {
        return None, false;
      }
      var allowed, missing := ReadAllowlist(allowlist);
      if |missing| > 0 {
        assert missing[0] in missing;
        return None, false;
      }
      assert forall n :: n in allowlist ==> n !in missing;
      var result, unexpected := RegisterAllowed(allowed);
      return Some(result), unexpected;
    }

    /** Registers the allowed tools, in list order, in a new registry. */
    method RegisterAllowed(allowed: set<string>) returns (result: ToolRegistry, warned: bool)
      requires Agrees(Value())
      ensures fresh(result) && Agrees(result.Value()) && result.Value() == Restricted(Value(), allowed)
      ensures !warned
    {
      ghost var c := Value();
      result := new ToolRegistry();
      warned := false;
      KeptAtEnds(c, allowed);
      for i := 0 to |tools|
        invariant fresh(result) && Value() == c
        invariant Agrees(result.Value()) && result.Value() == Kept(c, i, allowed)
        invariant !warned
      {
        KeptStep(c, i, allowed);
        if tools[i].name !in allowed {
          continue;
        }
        var err := result.Register(Some(tools[i]), Some(configs[tools[i].name]));
        if err.Some? {
          warned := true;
        }
      }
    }
  }

  // ------------------------------------------------------------ agreement

  lemma RegisterKeepsAgreement(c: Catalog, tool: Option<Tool>, config: Option<ToolConfig>)
    requires Agrees(c)
    ensures Agrees(Registered(c, tool, config))
  {
    if Refusal(c, tool, config).None? {
      var t, after := tool.value, Registered(c, tool, config);
      InsertKeepsSorted(c.tools, t);
      InsertedMembers(c.tools, t);
      forall n | n in after.configs ensures exists u :: u in after.tools && u.name == n {
        if n == t.name {
          assert t in after.tools;
        } else {
          var u :| u in c.tools && u.name == n;
          assert u in after.tools;
        }
      }
    }
  }

  lemma InsertedMembers(tools: seq<Tool>, tool: Tool)
    ensures forall t :: t in Insert(tools, tool) <==> t in tools || t == tool
  {
    var p := Position(tools, tool.name);
    assert tools == tools[..p] + tools[p..];
  }

  lemma InsertKeepsSorted(tools: seq<Tool>, tool: Tool)
    requires Sorted(tools) && forall t :: t in tools ==> t.name != tool.name
    ensures Sorted(Insert(tools, tool))
  {
    var p, after := Position(tools, tool.name), Insert(tools, tool);
    forall k | p <= k < |tools| ensures Less(tool.name, tools[k].name) {
      LessIsStrict(tools[p].name, tool.name);
      assert tools[p] in tools;
      if p < k {
        LessIsTransitive(tool.name, tools[p].name, tools[k].name);
      }
    }
    forall i, j | 0 <= i < j < |after| ensures Less(after[i].name, after[j].name) {
    }
  }

  /** After any sequence of registrations, refused or not, list and map agree. */
  lemma {:induction false} AlwaysAgrees(c: Catalog, entries: seq<Entry>)
    requires Agrees(c)
    ensures Agrees(RegisteredAll(c, entries))
  {
    if entries != [] {
      var k := |entries| - 1;
      AlwaysAgrees(c, entries[..k]);
      RegisterKeepsAgreement(RegisteredAll(c, entries[..k]), Some(entries[k].tool), Some(entries[k].config));
    }
  }

  // ---------------------------------------------- order independence, merging

  /** The i-th entry is the first one with its name, and the name is valid. */
  ghost predicate FirstOfItsName(entries: seq<Entry>, i: int) {
    && 0 <= i < |entries| && ValidToolName(entries[i].tool.name)
    && forall j :: 0 <= j < i ==> entries[j].tool.name != entries[i].tool.name
  }

  ghost predicate FirstValid(entries: seq<Entry>, e: Entry) {
    exists i :: FirstOfItsName(entries, i) && entries[i] == e
  }

  lemma EntryRegistered(c: Catalog, added: Entry, e: Entry)
    requires Agrees(c)
    ensures Holds(RegisteredEntry(c, added), e) <==>
      Holds(c, e) || (e == added && ValidToolName(e.tool.name) && e.tool.name !in c.configs)
  {
    InsertedMembers(c.tools, added.tool);
  }

  /** Each name keeps what the catalog had for it, and otherwise the tool and the
      configuration of its first valid registration. */
  lemma {:induction false} FirstRegistrationWins(c: Catalog, entries: seq<Entry>, e: Entry)
    requires Agrees(c)
    ensures Holds(RegisteredAll(c, entries), e) <==>
      Holds(c, e) || (e.tool.name !in c.configs && FirstValid(entries, e))
  {
    if entries == [] {
      return;
    }
    var k := |entries| - 1;
    var init, last := entries[..k], entries[k];
    var before := RegisteredAll(c, init);
    AlwaysAgrees(c, init);
    FirstRegistrationWins(c, init, e);
    EntryRegistered(before, last, e);
    FirstValidSnoc(init, last, e);
    assert entries == init + [last];
    if e == last && ValidToolName(e.tool.name) {
      NamesRegistered(c, init, e.tool.name);
    }
  }

  lemma FirstValidSnoc(init: seq<Entry>, last: Entry, e: Entry)
    ensures FirstValid(init + [last], e) <==>
      FirstValid(init, e)
      || (e == last && ValidToolName(e.tool.name) && forall j :: 0 <= j < |init| ==> init[j].tool.name != e.tool.name)
  {
    var entries := init + [last];
    forall i | 0 <= i < |init| ensures FirstOfItsName(entries, i) <==> FirstOfItsName(init, i) {
      assert forall j :: 0 <= j <= i ==> entries[j] == init[j];
    }
    if FirstValid(init, e) {
      var i :| FirstOfItsName(init, i) && init[i] == e;
      assert FirstOfItsName(entries, i) && entries[i] == e;
    }
    if FirstValid(entries, e) {
      var i :| FirstOfItsName(entries, i) && entries[i] == e;
      if i < |init| {
        assert FirstOfItsName(init, i) && init[i] == e;
      } else {
        assert forall j :: 0 <= j < |init| ==> init[j] == entries[j];
      }
    }
    if e == last && ValidToolName(e.tool.name) && forall j :: 0 <= j < |init| ==> init[j].tool.name != e.tool.name {
      assert forall j :: 0 <= j < |init| ==> entries[j] == init[j];
      assert FirstOfItsName(entries, |init|) && entries[|init|] == e;
    }
  }

  /** A valid name is registered exactly if it was, or some entry has it. */
  lemma {:induction false} NamesRegistered(c: Catalog, entries: seq<Entry>, name: string)
    requires ValidToolName(name)
    ensures name in RegisteredAll(c, entries).configs <==>
      name in c.configs || exists j :: 0 <= j < |entries| && entries[j].tool.name == name
  {
    if entries != [] {
      var k := |entries| - 1;
      NamesRegistered(c, entries[..k], name);
      assert forall j :: 0 <= j < k ==> entries[..k][j] == entries[j];
    }
  }

  lemma TailMembers(tools: seq<Tool>)
    requires Sorted(tools) && tools != []
    ensures forall t :: t in tools[1..] <==> t in tools && t != tools[0]
  {
    forall t ensures t in tools[1..] <==> t in tools && t != tools[0] {
      assert tools == [tools[0]] + tools[1..];
      if t in tools[1..] {
        var k :| 0 <= k < |tools| - 1 && tools[1..][k] == t;
        assert Less(tools[0].name, tools[k + 1].name);
        LessIsStrict(t.name, t.name);
      }
    }
  }

  lemma HasMember(tools: seq<Tool>)
    ensures tools != [] ==> exists t :: t in tools
  {
    if tools != [] {
      assert tools[0] in tools;
    }
  }

  /** A strictly sorted list is determined by its members. */
  lemma {:induction false} SortedIsUnique(a: seq<Tool>, b: seq<Tool>)
    requires Sorted(a) && Sorted(b)
    requires forall t :: t in a <==> t in b
    ensures a == b
  {
    HasMember(a);
    HasMember(b);
    if a != [] && b != [] {
      SameFirst(a, b);
      TailMembers(a);
      TailMembers(b);
      SortedIsUnique(a[1..], b[1..]);
      assert a == [a[0]] + a[1..] && b == [b[0]] + b[1..];
    }
  }

  lemma SameFirst(a: seq<Tool>, b: seq<Tool>)
    requires Sorted(a) && Sorted(b) && a != [] && b != []
    requires forall t :: t in a <==> t in b
    ensures a[0] == b[0]
  {
    assert a[0] in b && b[0] in a;
    var i :| 0 <= i < |b| && b[i] == a[0];
    var j :| 0 <= j < |a| && a[j] == b[0];
    LessIsStrict(a[0].name, b[0].name);
  }

  lemma HeldIsShared(c: Catalog, d: Catalog)
    requires Agrees(c)
    requires forall e :: Holds(c, e) ==> Holds(d, e)
    ensures forall t :: t in c.tools ==> t in d.tools
    ensures forall n :: n in c.configs ==> n in d.configs && d.configs[n] == c.configs[n]
  {
    forall t | t in c.tools ensures t in d.tools {
      assert Holds(c, Entry(t, c.configs[t.name]));
    }
    forall n | n in c.configs ensures n in d.configs && d.configs[n] == c.configs[n] {
      var t :| t in c.tools && t.name == n;
      assert Holds(c, Entry(t, c.configs[n]));
    }
  }

  /** A catalog is determined by the entries it holds. */
  lemma SameEntriesSameCatalog(c: Catalog, d: Catalog)
    requires Agrees(c) && Agrees(d)
    requires forall e :: Holds(c, e) <==> Holds(d, e)
    ensures c == d
  {
    HeldIsShared(c, d);
    HeldIsShared(d, c);
    SortedIsUnique(c.tools, d.tools);
    assert c.configs == d.configs;
  }

  /** Registering in another order: the result depends only on which entries come
      first for their name. */
  lemma SameFirstEntriesSameCatalog(c: Catalog, entries: seq<Entry>, other: seq<Entry>)
    requires Agrees(c)
    requires forall e :: FirstValid(entries, e) <==> FirstValid(other, e)
    ensures RegisteredAll(c, entries) == RegisteredAll(c, other)
  {
    AlwaysAgrees(c, entries);
    AlwaysAgrees(c, other);
    forall e ensures Holds(RegisteredAll(c, entries), e) <==> Holds(RegisteredAll(c, other), e) {
      FirstRegistrationWins(c, entries, e);
      FirstRegistrationWins(c, other, e);
    }
    SameEntriesSameCatalog(RegisteredAll(c, entries), RegisteredAll(c, other));
  }

  ghost predicate DistinctNames(entries: seq<Entry>) {
    forall i, j :: 0 <= i < j < |entries| ==> entries[i].tool.name != entries[j].tool.name
  }

  lemma DistinctAreAllFirst(entries: seq<Entry>, e: Entry)
    requires DistinctNames(entries)
    ensures FirstValid(entries, e) <==> e in entries && ValidToolName(e.tool.name)
  {
    if e in entries && ValidToolName(e.tool.name) {
      var i :| 0 <= i < |entries| && entries[i] == e;
      assert FirstOfItsName(entries, i);
    }
  }

  /** Any permutation of distinctly named tools gives the same list and map. */
  lemma RegistrationOrderIsIrrelevant(c: Catalog, entries: seq<Entry>, permuted: seq<Entry>)
    requires Agrees(c)
    requires DistinctNames(entries) && DistinctNames(permuted) && multiset(entries) == multiset(permuted)
    ensures RegisteredAll(c, entries) == RegisteredAll(c, permuted)
  {
    forall e ensures FirstValid(entries, e) <==> FirstValid(permuted, e) {
      DistinctAreAllFirst(entries, e);
      DistinctAreAllFirst(permuted, e);
      assert e in entries <==> e in multiset(entries);
      assert e in permuted <==> e in multiset(permuted);
    }
    SameFirstEntriesSameCatalog(c, entries, permuted);
  }

  /** The entries of a catalog in list order. */
  function EntriesOf(c: Catalog): seq<Entry>
    requires forall t :: t in c.tools ==> t.name in c.configs
  {
    seq(|c.tools|, i requires 0 <= i < |c.tools| =>
      assert c.tools[i] in c.tools; Entry(c.tools[i], c.configs[c.tools[i].name]))
  }

  method RegisterLoadedTools(registry: ToolRegistry, loaded: ToolRegistry)
    requires registry != loaded && Agrees(registry.Value()) && Agrees(loaded.Value())
    modifies registry
    ensures Agrees(registry.Value())
    ensures registry.Value() == RegisteredAll(old(registry.Value()), EntriesOf(loaded.Value()))
  {
    ghost var before, entries := registry.Value(), EntriesOf(loaded.Value());
    for i := 0 to |loaded.tools|
      invariant Agrees(registry.Value()) && registry.Value() == RegisteredAll(before, entries[..i])
    {
      var tool := loaded.tools[i];
      assert tool in loaded.tools;
      if tool.name !in loaded.configs {
        assert false;
        continue;
      }
      assert entries[i] == Entry(tool, loaded.configs[tool.name]);
      assert entries[..i + 1][..i] == entries[..i];
      var _ := registry.Register(Some(tool), Some(loaded.configs[tool.name]));
    }
    assert entries[..|entries|] == entries;
  }

  lemma MergedEntries(c: Catalog, loaded: Catalog, e: Entry)
    requires Agrees(c) && Agrees(loaded)
    ensures Holds(RegisteredAll(c, EntriesOf(loaded)), e) <==>
      Holds(c, e) || (e.tool.name !in c.configs && Holds(loaded, e))
  {
    FirstRegistrationWins(c, EntriesOf(loaded), e);
    ListedEntries(loaded, e);
  }

  /** Merging a loaded registry is a left-biased union: what is already there
      stays, and the rest of the loaded entries is added. */
  lemma MergeIsLeftBiasedUnion(c: Catalog, loaded: Catalog)
    requires Agrees(c) && Agrees(loaded)
    ensures var merged := RegisteredAll(c, EntriesOf(loaded));
      && Agrees(merged)
      && (forall e :: Holds(merged, e) <==> Holds(c, e) || (e.tool.name !in c.configs && Holds(loaded, e)))
      && merged.configs == loaded.configs + c.configs
  {
    AlwaysAgrees(c, EntriesOf(loaded));
    forall e {
      MergedEntries(c, loaded, e);
    }
    UnionOfConfigs(c, loaded, RegisteredAll(c, EntriesOf(loaded)));
  }

  lemma UnionOfConfigs(c: Catalog, loaded: Catalog, merged: Catalog)
    requires Agrees(c) && Agrees(loaded) && Agrees(merged)
    requires forall e :: Holds(merged, e) <==> Holds(c, e) || (e.tool.name !in c.configs && Holds(loaded, e))
    ensures merged.configs == loaded.configs + c.configs
  {
    forall n ensures n in merged.configs <==> n in c.configs || n in loaded.configs {
      NamesOfUnion(c, loaded, merged, n);
    }
    forall n | n in merged.configs ensures merged.configs[n] == (loaded.configs + c.configs)[n] {
      ConfigsOfUnion(c, loaded, merged, n);
    }
  }

  lemma ConfigsOfUnion(c: Catalog, loaded: Catalog, merged: Catalog, n: string)
    requires Agrees(merged) && n in merged.configs
    requires forall e :: Holds(merged, e) <==> Holds(c, e) || (e.tool.name !in c.configs && Holds(loaded, e))
    ensures n in loaded.configs + c.configs && merged.configs[n] == (loaded.configs + c.configs)[n]
  {
    var t :| t in merged.tools && t.name == n;
    assert Holds(merged, Entry(t, merged.configs[n]));
  }

  lemma ListedEntries(c: Catalog, e: Entry)
    requires Agrees(c)
    ensures FirstValid(EntriesOf(c), e) <==> Holds(c, e)
  {
    var entries := EntriesOf(c);
    forall i, j | 0 <= i < j < |entries| ensures entries[i].tool.name != entries[j].tool.name {
      LessIsStrict(c.tools[i].name, c.tools[j].name);
    }
    DistinctAreAllFirst(entries, e);
    if Holds(c, e) {
      var i :| 0 <= i < |c.tools| && c.tools[i] == e.tool;
      assert entries[i] == e;
    }
  }

  lemma NamesOfUnion(c: Catalog, loaded: Catalog, merged: Catalog, n: string)
    requires Agrees(c) && Agrees(loaded) && Agrees(merged)
    requires forall x :: Holds(merged, x) <==> Holds(c, x) || (x.tool.name !in c.configs && Holds(loaded, x))
    ensures n in merged.configs <==> n in c.configs || n in loaded.configs
  {
    if n in merged.configs {
      var t :| t in merged.tools && t.name == n;
      assert Holds(merged, Entry(t, merged.configs[n]));
    } else if n in c.configs {
      var t :| t in c.tools && t.name == n;
      assert Holds(c, Entry(t, c.configs[n]));
    } else if n in loaded.configs {
      var t :| t in loaded.tools && t.name == n;
      assert Holds(loaded, Entry(t, loaded.configs[n]));
    }
  }

  // ------------------------------------------------------------- filtering

  /** The order-preserving subsequence of tools with an allowed name. */
  function Allowed(tools: seq<Tool>, names: set<string>): seq<Tool> {
    if tools == [] then []
    else (if tools[0].name in names then [tools[0]] else []) + Allowed(tools[1..], names)
  }

  function Restricted(c: Catalog, names: set<string>): Catalog {
    Catalog(Allowed(c.tools, names), map n | n in c.configs && n in names :: c.configs[n])
  }

  lemma {:induction false} AllowedSnoc(tools: seq<Tool>, last: Tool, names: set<string>)
    ensures Allowed(tools + [last], names) == Allowed(tools, names) + (if last.name in names then [last] else [])
  {
    var kept := if last.name in names then [last] else [];
    if tools == [] {
      assert tools + [last] == [last] && [last][1..] == [];
      assert Allowed([last], names) == kept;
    } else {
      assert (tools + [last])[1..] == tools[1..] + [last];
      AllowedSnoc(tools[1..], last, names);
      Associates(if tools[0].name in names then [tools[0]] else [], Allowed(tools[1..], names), kept);
    }
  }

  lemma {:induction false} AllowedMembers(tools: seq<Tool>, names: set<string>)
    ensures forall t :: t in Allowed(tools, names) <==> t in tools && t.name in names
  {
    if tools != [] {
      AllowedMembers(tools[1..], names);
      assert tools == [tools[0]] + tools[1..];
    }
  }

  /** The registry being built by the filter once it has seen `k` tools. */
  ghost function Kept(c: Catalog, k: nat, names: set<string>): Catalog
    requires k <= |c.tools|
  {
    Catalog(Allowed(c.tools[..k], names),
            map n | n in c.configs && n in names && (exists i :: 0 <= i < k && c.tools[i].name == n) :: c.configs[n])
  }

  lemma KeptAtEnds(c: Catalog, names: set<string>)
    requires Agrees(c)
    ensures Kept(c, 0, names) == EMPTY
    ensures Kept(c, |c.tools|, names) == Restricted(c, names)
  {
    assert c.tools[..|c.tools|] == c.tools;
    forall n | n in c.configs ensures exists i :: 0 <= i < |c.tools| && c.tools[i].name == n {
      ListedSomewhere(c, n);
    }
    assert Kept(c, |c.tools|, names).configs == Restricted(c, names).configs;
  }

  lemma ListedSomewhere(c: Catalog, n: string)
    requires Agrees(c) && n in c.configs
    ensures exists i :: 0 <= i < |c.tools| && c.tools[i].name == n
  {
    var t :| t in c.tools && t.name == n;
    var i :| 0 <= i < |c.tools| && c.tools[i] == t;
  }

  lemma NotKeptYet(c: Catalog, k: nat)
    requires Agrees(c) && k < |c.tools|
    ensures forall i :: 0 <= i < k ==> c.tools[i].name != c.tools[k].name
  {
    LessIsStrict(c.tools[k].name, c.tools[k].name);
  }

  lemma KeptConfigs(c: Catalog, k: nat, names: set<string>)
    requires Agrees(c) && k < |c.tools|
    ensures var name := c.tools[k].name;
      && name in c.configs
      && name !in Kept(c, k, names).configs
      && Kept(c, k + 1, names).configs ==
         if name in names then Kept(c, k, names).configs[name := c.configs[name]] else Kept(c, k, names).configs
  {
    assert c.tools[k] in c.tools;
    NotKeptYet(c, k);
    KeptNames(c, k, names);
  }

  lemma KeptNames(c: Catalog, k: nat, names: set<string>)
    requires k < |c.tools|
    ensures forall n :: n in c.configs ==>
      (n in Kept(c, k + 1, names).configs <==>
        n in Kept(c, k, names).configs || (n == c.tools[k].name && n in names))
  {
    forall n | n in c.configs
      ensures (exists i :: 0 <= i < k + 1 && c.tools[i].name == n) <==>
              (exists i :: 0 <= i < k && c.tools[i].name == n) || n == c.tools[k].name
    {
    }
  }

  /** Each allowed tool is accepted, at the end of the list. */
  lemma KeptStep(c: Catalog, k: nat, names: set<string>)
    requires Agrees(c) && k < |c.tools|
    ensures var tool := c.tools[k];
      if tool.name in names then
        && tool.name in c.configs
        && Refusal(Kept(c, k, names), Some(tool), Some(c.configs[tool.name])).None?
        && Registered(Kept(c, k, names), Some(tool), Some(c.configs[tool.name])) == Kept(c, k + 1, names)
      else Kept(c, k + 1, names) == Kept(c, k, names)
  {
    var tool := c.tools[k];
    KeptConfigs(c, k, names);
    assert c.tools[..k + 1] == c.tools[..k] + [tool];
    AllowedSnoc(c.tools[..k], tool, names);
    AllowedMembers(c.tools[..k], names);
    if tool.name in names {
      InsertAtEnd(Allowed(c.tools[..k], names), tool);
    }
  }

  lemma {:induction false} KeptAgrees(c: Catalog, k: nat, names: set<string>)
    requires Agrees(c) && k <= |c.tools|
    ensures Agrees(Kept(c, k, names))
  {
    KeptAtEnds(c, names);
    if k > 0 {
      KeptAgrees(c, k - 1, names);
      KeptStep(c, k - 1, names);
      var tool := c.tools[k - 1];
      if tool.name in names {
        RegisterKeepsAgreement(Kept(c, k - 1, names), Some(tool), Some(c.configs[tool.name]));
      }
    }
  }

  /** A filtered catalog agrees, too. */
  lemma RestrictedAgrees(c: Catalog, names: set<string>)
    requires Agrees(c)
    ensures Agrees(Restricted(c, names))
  {
    KeptAgrees(c, |c.tools|, names);
    KeptAtEnds(c, names);
  }

  lemma {:induction false} InsertAtEnd(tools: seq<Tool>, tool: Tool)
    requires forall t :: t in tools ==> Less(t.name, tool.name)
    ensures Insert(tools, tool) == tools + [tool]
  {
    if tools != [] {
      assert tools[0] in tools;
      InsertAtEnd(tools[1..], tool);
      assert Position(tools[1..], tool.name) == |tools| - 1;
    }
  }

  // ------------------------------------------------------------- tool names

  /** A name is valid if and only if it has 1 to 128 of the letters, the digits and
      underscore, dash and dot. */
  lemma ValidNames(name: string)
    ensures ValidToolName(name) <==>
      && name != "" && |name| <= 128
      && forall i :: 0 <= i < |name| ==>
           || (65 <= name[i] as int <= 90) || (97 <= name[i] as int <= 122) || (48 <= name[i] as int <= 57)
           || name[i] in "_-."
  {
    if ValidToolName(name) {
      forall i | 0 <= i < |name| ensures IsNameChar(name[i]) {
        assert name[i] in name;
      }
    }
  }
}

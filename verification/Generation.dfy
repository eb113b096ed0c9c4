/** From OpenAPI operations to registered tools: the generation loops of
    openapi.go, and what they keep. */
module Generation {
  import opened Common
  import opened Text
  import opened SchemaProjection
  import opened ResponseChoice
  import opened Registry
  import E = EndpointRequests
  import P = Placeholders

  datatype ParamSpec = ParamSpec(name: string, location: string, required: bool, description: string, schema: Option<Schema>)

  /** A resolved request body; its content is as in a response. */
  datatype RequestBody = RequestBody(content: Content, required: bool)

  datatype Operation = Operation(
    operationId: string,
    summary: string,
    description: string,
    parameters: seq<ParamSpec>,
    body: Option<RequestBody>,
    responses: Responses)

  /** Operations by path and upper-case HTTP method. */
  datatype Spec = Spec(host: string, paths: map<string, map<string, Operation>>)

  /** The orders in which the maps of a spec are visited; the inner ones may
      differ from path to path and from operation to operation. */
  datatype SpecWalk = SpecWalk(
    paths: Order,
    methods: string -> Order,
    inner: InnerWalk)

  datatype InnerWalk = InnerWalk(statuses: (string, string) -> Order, mediaTypes: (string, string) -> MediaOrders)

  const JSON := "application/json"

  predicate HasSupportedRequestBody(op: Operation) {
    op.body.Some? ==> exists t :: t in op.body.value.content && JSON <= t
  }

  predicate ShouldSkip(op: Operation) {
    op.operationId == "" || !HasSupportedRequestBody(op)
  }

  /** A JSON request body without a schema entry, which the generation
      dereferences. */
  predicate Panics(op: Operation) {
    op.body.Some? && JSON in op.body.value.content && op.body.value.content[JSON].None?
  }

  predicate PanicsAt(spec: Spec, path: string, verb: string) {
    path in spec.paths && verb in spec.paths[path] && !ShouldSkip(spec.paths[path][verb]) && Panics(spec.paths[path][verb])
  }

  /** Generating from this document panics, in whatever order. */
  ghost predicate Crashes(spec: Spec) {
    exists p, v :: PanicsAt(spec, p, v)
  }

  const OBJECT := "object"

  predicate Contains(s: string, part: string) {
    part <= s || (s != "" && Contains(s[1..], part))
  }

  predicate IsTopLevelObject(s: Schema) {
    s.types.Some? && exists t :: t in s.types.value && Contains(t, OBJECT)
  }

  const NO_KEYWORDS := JsonSchema(None, None, None, None, NoJsonProperties, None)

  /** A parameter's description overrides its schema's. */
  function ParameterSchema(p: ParamSpec): JsonSchema {
    var base := if p.schema.Some? then Project(p.schema.value) else NO_KEYWORDS;
    if p.description != "" then base.(description := Some(p.description)) else base
  }

  function Described(s: JsonSchema, description: string): JsonSchema {
    if s.description.None? then s.(description := Some(description)) else s
  }

  function BodySchema(body: RequestBody): JsonSchema {
    if JSON in body.content && body.content[JSON].Some? && body.content[JSON].value.Some? then
      Described(Project(body.content[JSON].value.value), "Request body")
    else NO_KEYWORDS.(types := Some([OBJECT]), description := Some("Request body"))
  }

  /** What the loop over the parameters gathers. */
  datatype Gathered = Gathered(properties: map<string, JsonSchema>, required: seq<string>, endpoint: map<string, Parameter>)

  function Gather(parameters: seq<ParamSpec>): Gathered {
    if parameters == [] then Gathered(map[], [], map[])
    else
      var g := Gather(parameters[..|parameters| - 1]);
      var p := parameters[|parameters| - 1];
      Gathered(g.properties[p.name := ParameterSchema(p)],
               if p.required then g.required + [p.name] else g.required,
               g.endpoint[p.name := Parameter(p.location, p.required)])
  }

  function InputOf(op: Operation): InputSchema {
    var g := Gather(op.parameters);
    var properties := if op.body.Some? then g.properties["body" := BodySchema(op.body.value)] else g.properties;
    var required := if op.body.Some? && op.body.value.required then g.required + ["body"] else g.required;
    if properties == map[] then InputSchema(map[], [], true) else InputSchema(properties, required, false)
  }

  function OutputOf(op: Operation, statuses: Order, mediaTypes: MediaOrders): Option<JsonSchema> {
    Advertised(Chosen(op.responses, statuses, mediaTypes))
  }

  /** What a tool advertises for the chosen response schema: nothing, unless it is
      an object schema. */
  function Advertised(choice: Option<Schema>): Option<JsonSchema> {
    match choice
    case None => None
    case Some(schema) =>
      if IsTopLevelObject(schema) then Some(Described(Project(schema), "API response object")) else None
  }

  /** The tool and configuration generated for an operation. */
  function EntryAt(spec: Spec, path: string, verb: string, structured: bool, walk: InnerWalk): Entry
    requires path in spec.paths && verb in spec.paths[path]
  {
    var op := spec.paths[path][verb];
    var output := if structured then OutputOf(op, walk.statuses(path, verb), walk.mediaTypes(path, verb)) else None;
    Entry(
      Tool(op.operationId, op.summary, op.description, InputOf(op), output),
      ToolConfig(
        Endpoint(spec.host, ToLower(verb), path, Gather(op.parameters).endpoint,
                 if op.body.Some? && JSON in op.body.value.content then JSON else ""),
        ToolResponseConfig(output.Some?)))
  }

  /** The loop over an operation's parameters. */
  method GatherParameters(parameters: seq<ParamSpec>, order: Order)
    returns (properties: map<string, JsonSchema>, required: seq<string>, endpointParams: map<string, Parameter>)
    ensures Gathered(properties, required, endpointParams) == Gather(parameters)
  {
    properties, required, endpointParams := map[], [], map[];
    for i := 0 to |parameters|
      invariant Gathered(properties, required, endpointParams) == Gather(parameters[..i])
    {
      var p := parameters[i];
      assert parameters[..i + 1][..i] == parameters[..i];
      var schema := NO_KEYWORDS;
      if p.schema.Some? {
        schema := OpenApiSchemaToMap(p.schema.value, order);
      }
      if p.description != "" {
        schema := schema.(description := Some(p.description));
      }
      properties := properties[p.name := schema];
      if p.required {
        required := required + [p.name];
      }
      endpointParams := endpointParams[p.name := Parameter(p.location, p.required)];
    }
    assert parameters[..|parameters|] == parameters;
  }

  /** The schema and the content type of a request body, unless it panics. */
  method ProjectRequestBody(body: RequestBody, order: Order) returns (panicked: bool, bodySchema: JsonSchema, contentType: string)
    ensures panicked <==> JSON in body.content && body.content[JSON].None?
    ensures !panicked ==> bodySchema == BodySchema(body) && contentType == if JSON in body.content then JSON else ""
  {
    panicked, contentType := false, "";
    bodySchema := NO_KEYWORDS.(types := Some([OBJECT]), description := Some("Request body"));
    if JSON in body.content {
      contentType := JSON;
      if body.content[JSON].None? {
        panicked := true;
        return;
      }
      var schema := body.content[JSON].value;
      if schema.Some? {
        bodySchema := OpenApiSchemaToMap(schema.value, order);
        if bodySchema.description.None? {
          bodySchema := bodySchema.(description := Some("Request body"));
        }
      }
    }
  }

  /** The tool and the configuration of an operation; None is a panic. */
  method GenerateMCPToolFromApiOperation(op: Operation, verb: string, path: string, host: string, order: Order,
                                         statuses: Order, mediaTypes: MediaOrders) returns (generated: Option<Entry>)
    ensures generated.None? <==> Panics(op)
    ensures generated.Some? ==> generated.value == Entry(
      Tool(op.operationId, op.summary, op.description, InputOf(op), OutputOf(op, statuses, mediaTypes)),
      ToolConfig(
        Endpoint(host, ToLower(verb), path, Gather(op.parameters).endpoint,
                 if op.body.Some? && JSON in op.body.value.content then JSON else ""),
        ToolResponseConfig(false)))
  {
    var properties, required, endpointParams := GatherParameters(op.parameters, order);
    var contentType := "";
    if op.body.Some? {
      var panicked, bodySchema, bodyType := ProjectRequestBody(op.body.value, order);
      if panicked {
        return None;
      }
      contentType := bodyType;
      properties := properties["body" := bodySchema];
      if op.body.value.required {
        required := required + ["body"];
      }
    }
    var input := InputSchema(properties, required, false);
    if |properties| == 0 {
      input := InputSchema(map[], [], true);
    }
    var output: Option<JsonSchema> := None;
    var responseSchema := FindJSONSchemaFromResponses(op.responses, statuses, mediaTypes);
    if responseSchema.Some? && IsTopLevelObject(responseSchema.value) {
      var projected := OpenApiSchemaToMap(responseSchema.value, order);
      output := Some(Described(projected, "API response object"));
    }
    var tool := Tool(op.operationId, op.summary, op.description, input, output);
    var config := ToolConfig(Endpoint(host, ToLower(verb), path, endpointParams, contentType), ToolResponseConfig(false));
    generated := Some(Entry(tool, config));
  }

  // ------------------------------------------------------ the whole spec

  /** The entries of one path, in the order its methods are visited. */
  function PathEntries(spec: Spec, path: string, verbs: seq<string>, structured: bool, walk: InnerWalk): seq<Entry>
    requires path in spec.paths && forall v :: v in verbs ==> v in spec.paths[path]
  {
    if verbs == [] then []
    else
      var verb := verbs[|verbs| - 1];
      PathEntries(spec, path, verbs[..|verbs| - 1], structured, walk)
      + (if ShouldSkip(spec.paths[path][verb]) then [] else [EntryAt(spec, path, verb, structured, walk)])
  }

  function SpecEntries(spec: Spec, paths: seq<string>, structured: bool, walk: SpecWalk): seq<Entry>
    requires forall p :: p in paths ==> p in spec.paths
  {
    if paths == [] then []
    else
      var path := paths[|paths| - 1];
      assert path in spec.paths;
      SpecEntries(spec, paths[..|paths| - 1], structured, walk)
      + PathEntries(spec, path, walk.methods(path)(spec.paths[path].Keys), structured, walk.inner)
  }

  /** Every registration the generation attempts, in order. */
  function Attempts(spec: Spec, structured: bool, walk: SpecWalk): seq<Entry> {
    SpecEntries(spec, walk.paths(spec.paths.Keys), structured, walk)
  }

  method GenerateMCPToolsFromSpec(spec: Spec, structured: bool, walk: SpecWalk, order: Order)
    returns (generated: Option<ToolRegistry>)
    ensures generated.None? <==> Crashes(spec)
    ensures generated.Some? ==>
      && fresh(generated.value) && Agrees(generated.value.Value())
      && generated.value.Value() == RegisteredAll(EMPTY, Attempts(spec, structured, walk))
  {
    var registry := new ToolRegistry();
    var paths := walk.paths(spec.paths.Keys);
    for i := 0 to |paths|
      invariant fresh(registry) && Agrees(registry.Value())
      invariant registry.Value() == RegisteredAll(EMPTY, SpecEntries(spec, paths[..i], structured, walk))
      invariant forall p, v :: p in paths[..i] ==> !PanicsAt(spec, p, v)
    {
      var path := paths[i];
      SpecEntriesSnoc(spec, paths, i, structured, walk);
      var verbs := walk.methods(path)(spec.paths[path].Keys);
      var panicked := GeneratePath(spec, path, verbs, structured, walk.inner, order, registry);
      if panicked {
        return None;
      }
      NoPanicOnPath(spec, path, verbs);
      RegisteredInTwoParts(EMPTY, SpecEntries(spec, paths[..i], structured, walk),
                           PathEntries(spec, path, verbs, structured, walk.inner));
    }
    assert paths[..|paths|] == paths;
    forall p, v ensures !PanicsAt(spec, p, v) {
      assert p in spec.paths.Keys <==> p in paths;
    }
    generated := Some(registry);
  }

  lemma NoPanicOnPath(spec: Spec, path: string, verbs: seq<string>)
    requires path in spec.paths && Lists(verbs, spec.paths[path].Keys)
    requires forall v :: v in verbs ==> !PanicsAt(spec, path, v)
    ensures forall v :: !PanicsAt(spec, path, v)
  {
    forall v ensures !PanicsAt(spec, path, v) {
      assert v in spec.paths[path].Keys <==> v in verbs;
    }
  }

  lemma SpecEntriesSnoc(spec: Spec, paths: seq<string>, i: nat, structured: bool, walk: SpecWalk)
    requires (forall p :: p in paths ==> p in spec.paths) && i < |paths|
    ensures paths[i] in spec.paths
    ensures SpecEntries(spec, paths[..i + 1], structured, walk) == SpecEntries(spec, paths[..i], structured, walk)
      + PathEntries(spec, paths[i], walk.methods(paths[i])(spec.paths[paths[i]].Keys), structured, walk.inner)
  {
    assert paths[i] in paths;
    assert paths[..i + 1][..i] == paths[..i];
  }

  /** One operation: its tool without the output schema that is not wanted, and
      its configuration with structured output set accordingly. */
  method GenerateEntry(spec: Spec, path: string, verb: string, structured: bool, walk: InnerWalk, order: Order)
    returns (generated: Option<Entry>)
    requires path in spec.paths && verb in spec.paths[path]
    ensures generated.None? <==> Panics(spec.paths[path][verb])
    ensures generated.Some? ==> generated.value == EntryAt(spec, path, verb, structured, walk)
  {
    generated := GenerateMCPToolFromApiOperation(spec.paths[path][verb], verb, path, spec.host, order,
      walk.statuses(path, verb), walk.mediaTypes(path, verb));
    if generated.None? {
      return;
    }
    var Entry(tool, config) := generated.value;
    if tool.output.None? || !structured {
      tool := tool.(output := None);
    }
    config := config.(response := ToolResponseConfig(tool.output.Some?));
    generated := Some(Entry(tool, config));
  }

  /** Registers an entry; a refusal is only logged. */
  method RegisterEntry(registry: ToolRegistry, entry: Entry)
    requires Agrees(registry.Value())
    modifies registry
    ensures Agrees(registry.Value()) && registry.Value() == RegisteredEntry(old(registry.Value()), entry)
  {
    var _ := registry.Register(Some(entry.tool), Some(entry.config));
  }

  lemma PathEntriesSnoc(spec: Spec, path: string, verbs: seq<string>, j: nat, structured: bool, walk: InnerWalk)
    requires path in spec.paths && (forall v :: v in verbs ==> v in spec.paths[path]) && j < |verbs|
    ensures verbs[j] in spec.paths[path]
    ensures PathEntries(spec, path, verbs[..j + 1], structured, walk) ==
      PathEntries(spec, path, verbs[..j], structured, walk)
      + (if ShouldSkip(spec.paths[path][verbs[j]]) then [] else [EntryAt(spec, path, verbs[j], structured, walk)])
  {
    assert verbs[j] in verbs;
    assert verbs[..j + 1][..j] == verbs[..j];
  }

  /** The inner loop, over the operations of one path in the order visited. */
  method GeneratePath(spec: Spec, path: string, verbs: seq<string>, structured: bool, inner: InnerWalk, order: Order,
                      registry: ToolRegistry) returns (panicked: bool)
    requires path in spec.paths && (forall v :: v in verbs ==> v in spec.paths[path])
    requires Agrees(registry.Value())
    modifies registry
    ensures Agrees(registry.Value())
    ensures panicked <==> exists v :: v in verbs && PanicsAt(spec, path, v)
    ensures !panicked ==>
      registry.Value() == RegisteredAll(old(registry.Value()), PathEntries(spec, path, verbs, structured, inner))
  {
    ghost var before := registry.Value();
    for j := 0 to |verbs|
      invariant Agrees(registry.Value())
      invariant registry.Value() == RegisteredAll(before, PathEntries(spec, path, verbs[..j], structured, inner))
      invariant forall v :: v in verbs[..j] ==> !PanicsAt(spec, path, v)
    {
      PathEntriesSnoc(spec, path, verbs, j, structured, inner);
      panicked := GenerateOperation(spec, path, verbs[j], structured, inner, order, registry, before,
                                    PathEntries(spec, path, verbs[..j], structured, inner));
      if panicked {
        return;
      }
    }
    panicked := false;
    assert verbs[..|verbs|] == verbs;
  }

  /** The body of the inner loop: skips the operation or registers its entry. */
  method GenerateOperation(spec: Spec, path: string, verb: string, structured: bool, inner: InnerWalk, order: Order,
                           registry: ToolRegistry, ghost before: Catalog, ghost entries: seq<Entry>)
    returns (panicked: bool)
    requires path in spec.paths && verb in spec.paths[path]
    requires Agrees(registry.Value()) && registry.Value() == RegisteredAll(before, entries)
    modifies registry
    ensures Agrees(registry.Value())
    ensures panicked <==> PanicsAt(spec, path, verb)
    ensures !panicked ==> registry.Value() == RegisteredAll(before, entries +
      (if ShouldSkip(spec.paths[path][verb]) then [] else [EntryAt(spec, path, verb, structured, inner)]))
  {
    if ShouldSkip(spec.paths[path][verb]) {
      assert entries + [] == entries;
      return false;
    }
    var generated := GenerateEntry(spec, path, verb, structured, inner, order);
    if generated.None? {
      return true;
    }
    RegisteredOneMore(before, entries, generated.value);
    RegisterEntry(registry, generated.value);
    return false;
  }

  lemma RegisteredOneMore(c: Catalog, entries: seq<Entry>, e: Entry)
    ensures RegisteredAll(c, entries + [e]) == RegisteredEntry(RegisteredAll(c, entries), e)
  {
    assert (entries + [e])[..|entries|] == entries;
  }

  lemma {:induction false} RegisteredInTwoParts(c: Catalog, a: seq<Entry>, b: seq<Entry>)
    ensures RegisteredAll(c, a + b) == RegisteredAll(RegisteredAll(c, a), b)
  {
    if b == [] {
      assert a + b == a;
    } else {
      var k := |b| - 1;
      assert a + b == (a + b[..k]) + [b[k]];
      RegisteredOneMore(c, a + b[..k], b[k]);
      RegisteredInTwoParts(c, a, b[..k]);
    }
  }

  // -------------------------------------------- independent of the order

  /** An operation that is offered for registration under a valid name. */
  ghost predicate Offered(spec: Spec, path: string, verb: string) {
    && path in spec.paths && verb in spec.paths[path]
    && !ShouldSkip(spec.paths[path][verb]) && ValidToolName(spec.paths[path][verb].operationId)
  }

  /** Two different offered operations have different names. */
  ghost predicate NoClash(spec: Spec) {
    forall p, v, p', v' :: Clash(spec, p, v, p', v') ==> p == p' && v == v'
  }

  ghost predicate Clash(spec: Spec, p: string, v: string, p': string, v': string) {
    Offered(spec, p, v) && Offered(spec, p', v') && spec.paths[p][v].operationId == spec.paths[p'][v'].operationId
  }

  ghost predicate Generated(spec: Spec, structured: bool, inner: InnerWalk, p: string, v: string, e: Entry) {
    && p in spec.paths && v in spec.paths[p] && !ShouldSkip(spec.paths[p][v])
    && e == EntryAt(spec, p, v, structured, inner)
  }

  /** `e` is generated for one of these methods of a path. */
  ghost predicate GeneratedAmong(spec: Spec, structured: bool, inner: InnerWalk, path: string, verbs: seq<string>, e: Entry) {
    exists v :: v in verbs && Generated(spec, structured, inner, path, v, e)
  }

  lemma AmongOneMore(spec: Spec, structured: bool, inner: InnerWalk, path: string, init: seq<string>, last: string, e: Entry)
    ensures GeneratedAmong(spec, structured, inner, path, init + [last], e) <==>
      GeneratedAmong(spec, structured, inner, path, init, e) || Generated(spec, structured, inner, path, last, e)
  {
    assert forall v :: v in init + [last] <==> v in init || v == last;
  }

  lemma {:induction false} PathEntriesMembers(spec: Spec, path: string, verbs: seq<string>, structured: bool, inner: InnerWalk, e: Entry)
    requires path in spec.paths && forall v :: v in verbs ==> v in spec.paths[path]
    ensures e in PathEntries(spec, path, verbs, structured, inner) <==>
      GeneratedAmong(spec, structured, inner, path, verbs, e)
  {
    if verbs != [] {
      var init, last := verbs[..|verbs| - 1], verbs[|verbs| - 1];
      PathEntriesMembers(spec, path, init, structured, inner, e);
      assert verbs == init + [last];
      AmongOneMore(spec, structured, inner, path, init, last, e);
    }
  }

  lemma {:induction false} SpecEntriesMembers(spec: Spec, paths: seq<string>, structured: bool, walk: SpecWalk, e: Entry)
    requires forall p :: p in paths ==> p in spec.paths
    ensures e in SpecEntries(spec, paths, structured, walk) <==>
      exists p, v :: p in paths && Generated(spec, structured, walk.inner, p, v, e)
  {
    if paths != [] {
      var init, last := paths[..|paths| - 1], paths[|paths| - 1];
      assert paths == init + [last];
      assert last in paths;
      SpecEntriesMembers(spec, init, structured, walk, e);
      var keys := spec.paths[last].Keys;
      PathEntriesMembers(spec, last, walk.methods(last)(keys), structured, walk.inner, e);
      forall v | Generated(spec, structured, walk.inner, last, v, e) ensures v in walk.methods(last)(keys) {
        assert v in keys;
      }
    }
  }

  lemma AttemptsMembers(spec: Spec, structured: bool, walk: SpecWalk, e: Entry)
    ensures e in Attempts(spec, structured, walk) <==> exists p, v :: Generated(spec, structured, walk.inner, p, v, e)
  {
    var paths := walk.paths(spec.paths.Keys);
    SpecEntriesMembers(spec, paths, structured, walk, e);
    forall p, v | Generated(spec, structured, walk.inner, p, v, e) ensures p in paths {
      assert p in spec.paths.Keys;
    }
  }

  /** The first entry with the name of a given one. */
  lemma {:induction false} FirstWithName(entries: seq<Entry>, name: string) returns (i: nat)
    requires exists e :: e in entries && e.tool.name == name
    ensures i < |entries| && entries[i].tool.name == name && forall j :: 0 <= j < i ==> entries[j].tool.name != name
  {
    if entries[0].tool.name == name {
      i := 0;
    } else {
      var e :| e in entries && e.tool.name == name;
      assert entries == [entries[0]] + entries[1..];
      assert e in entries[1..];
      var k := FirstWithName(entries[1..], name);
      i := k + 1;
    }
  }

  lemma FirstValidWithoutClash(spec: Spec, structured: bool, walk: SpecWalk, e: Entry)
    requires NoClash(spec)
    ensures FirstValid(Attempts(spec, structured, walk), e) <==>
      ValidToolName(e.tool.name) && exists p, v :: Generated(spec, structured, walk.inner, p, v, e)
  {
    var entries := Attempts(spec, structured, walk);
    AttemptsMembers(spec, structured, walk, e);
    if FirstValid(entries, e) {
      var i :| FirstOfItsName(entries, i) && entries[i] == e;
      assert e in entries;
    }
    if ValidToolName(e.tool.name) && e in entries {
      var i := FirstWithName(entries, e.tool.name);
      AttemptsMembers(spec, structured, walk, entries[i]);
      assert entries[i] in entries;
      var p, v :| Generated(spec, structured, walk.inner, p, v, entries[i]);
      var p', v' :| Generated(spec, structured, walk.inner, p', v', e);
      assert Clash(spec, p, v, p', v');
      assert FirstOfItsName(entries, i) && entries[i] == e;
    }
  }

  /** Without clashing names every order of paths and methods generates the same
      registry. */
  lemma GenerationOrderIsIrrelevant(spec: Spec, structured: bool, walk: SpecWalk, walk': SpecWalk)
    requires NoClash(spec) && walk.inner == walk'.inner
    ensures RegisteredAll(EMPTY, Attempts(spec, structured, walk)) == RegisteredAll(EMPTY, Attempts(spec, structured, walk'))
  {
    forall e ensures FirstValid(Attempts(spec, structured, walk), e) <==> FirstValid(Attempts(spec, structured, walk'), e) {
      FirstValidWithoutClash(spec, structured, walk, e);
      FirstValidWithoutClash(spec, structured, walk', e);
    }
    SameFirstEntriesSameCatalog(EMPTY, Attempts(spec, structured, walk), Attempts(spec, structured, walk'));
  }

  /** HTTP methods are written in upper case. */
  ghost predicate UpperCaseMethods(spec: Spec) {
    forall p, v :: p in spec.paths && v in spec.paths[p] ==> forall c :: c in v ==> 'A' <= c <= 'Z'
  }

  lemma {:induction false} LowerIsInjective(a: string, b: string)
    requires (forall c :: c in a ==> 'A' <= c <= 'Z') && (forall c :: c in b ==> 'A' <= c <= 'Z')
    requires ToLower(a) == ToLower(b)
    ensures a == b
  {
    assert |ToLower(a)| == |a| && |ToLower(b)| == |b|;
    forall i | 0 <= i < |a| ensures a[i] == b[i] {
      assert a[i] in a && b[i] in b;
      assert ToLower(a)[i] == ToLower(b)[i];
    }
  }

  ghost function WalkFirst(spec: Spec, inner: InnerWalk, p: string, v: string): SpecWalk
    requires p in spec.paths && v in spec.paths[p]
  {
    var methods := FirstOrder(spec.paths[p].Keys, v);
    SpecWalk(FirstOrder(spec.paths.Keys, p), (path: string) => methods, inner)
  }

  lemma {:induction false} PathStartsWith(spec: Spec, path: string, verbs: seq<string>, structured: bool, inner: InnerWalk)
    requires path in spec.paths && forall v :: v in verbs ==> v in spec.paths[path]
    requires verbs != [] && !ShouldSkip(spec.paths[path][verbs[0]])
    ensures [EntryAt(spec, path, verbs[0], structured, inner)] <= PathEntries(spec, path, verbs, structured, inner)
  {
    if |verbs| > 1 {
      PathStartsWith(spec, path, verbs[..|verbs| - 1], structured, inner);
    } else {
      assert PathEntries(spec, path, verbs[..0], structured, inner) == [];
    }
  }

  lemma {:induction false} SpecStartsWith(spec: Spec, paths: seq<string>, structured: bool, walk: SpecWalk, e: Entry)
    requires forall p :: p in paths ==> p in spec.paths
    requires paths != []
    requires [e] <= PathEntries(spec, paths[0], walk.methods(paths[0])(spec.paths[paths[0]].Keys), structured, walk.inner)
    ensures [e] <= SpecEntries(spec, paths, structured, walk)
  {
    if |paths| > 1 {
      SpecStartsWith(spec, paths[..|paths| - 1], structured, walk, e);
    } else {
      assert SpecEntries(spec, paths[..0], structured, walk) == [];
    }
  }

  /** Visited first, an offered operation gets its name. */
  lemma FirstVisitedIsRegistered(spec: Spec, structured: bool, inner: InnerWalk, p: string, v: string)
    requires Offered(spec, p, v)
    ensures Holds(RegisteredAll(EMPTY, Attempts(spec, structured, WalkFirst(spec, inner, p, v))),
                  EntryAt(spec, p, v, structured, inner))
  {
    var walk, e := WalkFirst(spec, inner, p, v), EntryAt(spec, p, v, structured, inner);
    var paths := walk.paths(spec.paths.Keys);
    var verbs := walk.methods(p)(spec.paths[p].Keys);
    assert p in spec.paths.Keys && v in spec.paths[p].Keys;
    assert paths[0] == p && verbs[0] == v;
    PathStartsWith(spec, p, verbs, structured, inner);
    SpecStartsWith(spec, paths, structured, walk, e);
    var entries := Attempts(spec, structured, walk);
    assert FirstOfItsName(entries, 0) && entries[0] == e;
    FirstRegistrationWins(EMPTY, entries, e);
  }

  ghost predicate OrderIndependentGeneration(spec: Spec, structured: bool, inner: InnerWalk) {
    forall walk: SpecWalk, walk': SpecWalk :: walk.inner == inner && walk'.inner == inner ==> SameRegistry(spec, structured, walk, walk')
  }

  ghost predicate SameRegistry(spec: Spec, structured: bool, walk: SpecWalk, walk': SpecWalk) {
    RegisteredAll(EMPTY, Attempts(spec, structured, walk)) == RegisteredAll(EMPTY, Attempts(spec, structured, walk'))
  }

  lemma EntryPlace(spec: Spec, structured: bool, inner: InnerWalk, p: string, v: string)
    requires p in spec.paths && v in spec.paths[p]
    ensures var e := EntryAt(spec, p, v, structured, inner);
      && e.tool.name == spec.paths[p][v].operationId
      && e.config.endpoint.pathTemplate == p && e.config.endpoint.httpMethod == ToLower(v)
  {
  }

  /** No catalog holds the entries of two clashing operations. */
  lemma ClashExcludes(spec: Spec, structured: bool, inner: InnerWalk, c: Catalog, p: string, v: string, p': string, v': string)
    requires UpperCaseMethods(spec)
    requires Clash(spec, p, v, p', v') && (p != p' || v != v')
    ensures !(Holds(c, EntryAt(spec, p, v, structured, inner)) && Holds(c, EntryAt(spec, p', v', structured, inner)))
  {
    EntryPlace(spec, structured, inner, p, v);
    EntryPlace(spec, structured, inner, p', v');
    if ToLower(v) == ToLower(v') {
      LowerIsInjective(v, v');
    }
  }

  lemma ClashingWalks(spec: Spec, structured: bool, inner: InnerWalk, p: string, v: string, p': string, v': string)
    requires UpperCaseMethods(spec)
    requires Clash(spec, p, v, p', v') && (p != p' || v != v')
    ensures !SameRegistry(spec, structured, WalkFirst(spec, inner, p, v), WalkFirst(spec, inner, p', v'))
  {
    FirstVisitedIsRegistered(spec, structured, inner, p, v);
    FirstVisitedIsRegistered(spec, structured, inner, p', v');
    ClashExcludes(spec, structured, inner, RegisteredAll(EMPTY, Attempts(spec, structured, WalkFirst(spec, inner, p, v))), p, v, p', v');
  }

  lemma ClashMakesOrderMatter(spec: Spec, structured: bool, inner: InnerWalk, p: string, v: string, p': string, v': string)
    requires UpperCaseMethods(spec)
    requires Clash(spec, p, v, p', v') && (p != p' || v != v')
    ensures !OrderIndependentGeneration(spec, structured, inner)
  {
    ClashingWalks(spec, structured, inner, p, v, p', v');
    DifferentRegistries(spec, structured, inner, WalkFirst(spec, inner, p, v), WalkFirst(spec, inner, p', v'));
  }

  lemma DifferentRegistries(spec: Spec, structured: bool, inner: InnerWalk, walk: SpecWalk, walk': SpecWalk)
    requires walk.inner == inner && walk'.inner == inner && !SameRegistry(spec, structured, walk, walk')
    ensures !OrderIndependentGeneration(spec, structured, inner)
  {
  }

  /** For given orders of statuses and media types, the generated registry does not
      depend on the order of paths and methods exactly if no two operations offered
      for registration share a name. */
  lemma OrderIrrelevantExactlyWithoutClash(spec: Spec, structured: bool, inner: InnerWalk)
    requires UpperCaseMethods(spec)
    ensures OrderIndependentGeneration(spec, structured, inner) <==> NoClash(spec)
  {
    if NoClash(spec) {
      forall walk: SpecWalk, walk': SpecWalk | walk.inner == inner && walk'.inner == inner
        ensures SameRegistry(spec, structured, walk, walk')
      {
        GenerationOrderIsIrrelevant(spec, structured, walk, walk');
      }
    } else {
      var p, v, p', v' :| Clash(spec, p, v, p', v') && !(p == p' && v == v');
      ClashMakesOrderMatter(spec, structured, inner, p, v, p', v');
    }
  }

  // ------------------------------------- independent of every order there is

  /** Every choice of response schema that the orders can make for the operation
      advertises the same. */
  ghost predicate OutputIsFixed(op: Operation) {
    forall r, r' :: Possible(op.responses, r) && Possible(op.responses, r') ==> Advertised(r) == Advertised(r')
  }

  ghost predicate OutputsAreFixed(spec: Spec) {
    forall p, v :: Offered(spec, p, v) ==> OutputIsFixed(spec.paths[p][v])
  }

  /** Any two walks, their inner orders included, generate the same registry. */
  ghost predicate GenerationIsFixed(spec: Spec, structured: bool) {
    forall walk: SpecWalk, walk': SpecWalk :: SameRegistry(spec, structured, walk, walk')
  }

  lemma SameEntries(spec: Spec, structured: bool, inner: InnerWalk, inner': InnerWalk, p: string, v: string)
    requires Offered(spec, p, v) && (structured ==> OutputIsFixed(spec.paths[p][v]))
    ensures EntryAt(spec, p, v, structured, inner) == EntryAt(spec, p, v, structured, inner')
  {
    var op := spec.paths[p][v];
    if structured {
      ChosenIsPossible(op.responses, inner.statuses(p, v), inner.mediaTypes(p, v));
      ChosenIsPossible(op.responses, inner'.statuses(p, v), inner'.mediaTypes(p, v));
    }
  }

  lemma GeneratedUnderBoth(spec: Spec, structured: bool, walk: SpecWalk, walk': SpecWalk, e: Entry)
    requires NoClash(spec) && (structured ==> OutputsAreFixed(spec))
    requires FirstValid(Attempts(spec, structured, walk), e)
    ensures FirstValid(Attempts(spec, structured, walk'), e)
  {
    FirstValidWithoutClash(spec, structured, walk, e);
    FirstValidWithoutClash(spec, structured, walk', e);
    var p, v :| Generated(spec, structured, walk.inner, p, v, e);
    assert Offered(spec, p, v);
    SameEntries(spec, structured, walk.inner, walk'.inner, p, v);
    assert Generated(spec, structured, walk'.inner, p, v, e);
  }

  lemma FixedWithoutClash(spec: Spec, structured: bool, walk: SpecWalk, walk': SpecWalk)
    requires NoClash(spec) && (structured ==> OutputsAreFixed(spec))
    ensures SameRegistry(spec, structured, walk, walk')
  {
    forall e ensures FirstValid(Attempts(spec, structured, walk), e) <==> FirstValid(Attempts(spec, structured, walk'), e) {
      if FirstValid(Attempts(spec, structured, walk), e) {
        GeneratedUnderBoth(spec, structured, walk, walk', e);
      }
      if FirstValid(Attempts(spec, structured, walk'), e) {
        GeneratedUnderBoth(spec, structured, walk', walk, e);
      }
    }
    SameFirstEntriesSameCatalog(EMPTY, Attempts(spec, structured, walk), Attempts(spec, structured, walk'));
  }

  /** No catalog holds two entries of one name with different tools. */
  lemma OneToolPerName(c: Catalog, e: Entry, e': Entry)
    requires Agrees(c) && Holds(c, e) && Holds(c, e') && e.tool.name == e'.tool.name
    ensures e.tool == e'.tool
  {
    var i :| 0 <= i < |c.tools| && c.tools[i] == e.tool;
    var j :| 0 <= j < |c.tools| && c.tools[j] == e'.tool;
    LessIsStrict(e.tool.name, e.tool.name);
  }

  /** The inner orders that make an operation's choice be `r`. */
  lemma InnerFor(op: Operation, p: string, v: string, r: Option<Schema>) returns (inner: InnerWalk)
    requires Possible(op.responses, r)
    ensures Chosen(op.responses, inner.statuses(p, v), inner.mediaTypes(p, v)) == r
  {
    var statuses, mediaTypes := OrdersFor(op.responses, r);
    inner := InnerWalk((_, _) => statuses, (_, _) => mediaTypes);
  }

  lemma OutputMakesOrderMatter(spec: Spec, p: string, v: string, r: Option<Schema>, r': Option<Schema>)
    returns (walk: SpecWalk, walk': SpecWalk)
    requires Offered(spec, p, v)
    requires Possible(spec.paths[p][v].responses, r) && Possible(spec.paths[p][v].responses, r')
    requires Advertised(r) != Advertised(r')
    ensures !SameRegistry(spec, true, walk, walk')
  {
    var op := spec.paths[p][v];
    var inner := InnerFor(op, p, v, r);
    var inner' := InnerFor(op, p, v, r');
    walk, walk' := WalkFirst(spec, inner, p, v), WalkFirst(spec, inner', p, v);
    FirstVisitedIsRegistered(spec, true, inner, p, v);
    FirstVisitedIsRegistered(spec, true, inner', p, v);
    var e, e' := EntryAt(spec, p, v, true, inner), EntryAt(spec, p, v, true, inner');
    assert e.tool.output == Advertised(r) && e'.tool.output == Advertised(r');
    if SameRegistry(spec, true, walk, walk') {
      AlwaysAgrees(EMPTY, Attempts(spec, true, walk));
      OneToolPerName(RegisteredAll(EMPTY, Attempts(spec, true, walk)), e, e');
      assert false;
    }
  }

  lemma AnyFixedWalks(spec: Spec, structured: bool, walk: SpecWalk, walk': SpecWalk)
    requires GenerationIsFixed(spec, structured)
    ensures SameRegistry(spec, structured, walk, walk')
  {
  }

  lemma FixedHasNoClash(spec: Spec, structured: bool, inner: InnerWalk)
    requires UpperCaseMethods(spec) && GenerationIsFixed(spec, structured)
    ensures NoClash(spec)
  {
    forall p, v, p', v' | Clash(spec, p, v, p', v') ensures p == p' && v == v' {
      if p != p' || v != v' {
        ClashingWalks(spec, structured, inner, p, v, p', v');
        AnyFixedWalks(spec, structured, WalkFirst(spec, inner, p, v), WalkFirst(spec, inner, p', v'));
        assert false;
      }
    }
  }

  lemma FixedHasFixedOutputs(spec: Spec)
    requires GenerationIsFixed(spec, true)
    ensures OutputsAreFixed(spec)
  {
    forall p, v, r, r' | Offered(spec, p, v) && Possible(spec.paths[p][v].responses, r) && Possible(spec.paths[p][v].responses, r')
      ensures Advertised(r) == Advertised(r')
    {
      if Advertised(r) != Advertised(r') {
        OutputsMatter(spec, p, v, r, r');
        assert false;
      }
    }
  }

  /** The registry generated from a document is the same for every order in which
      Go may visit any of its maps (paths, methods, statuses and media types)
      exactly if no two offered operations share a name and, when structured output
      is on, whichever response schema is chosen for an offered operation, the tool
      advertises the same. */
  lemma GenerationIsFixedExactlyIf(spec: Spec, structured: bool)
    requires UpperCaseMethods(spec)
    ensures GenerationIsFixed(spec, structured) <==> NoClash(spec) && (structured ==> OutputsAreFixed(spec))
  {
    if GenerationIsFixed(spec, structured) {
      FixedHasNoClash(spec, structured, InnerWalk((_, _) => SomeOrder(), (_, _) => _ => SomeOrder()));
      if structured {
        FixedHasFixedOutputs(spec);
      }
    }
    if NoClash(spec) && (structured ==> OutputsAreFixed(spec)) {
      forall walk: SpecWalk, walk': SpecWalk ensures SameRegistry(spec, structured, walk, walk') {
        FixedWithoutClash(spec, structured, walk, walk');
      }
    }
  }

  /** One operation is enough for the order to matter: two spellings of status 200
      with object schemas that are projected differently. */
  lemma SpellingsOfAStatusMakeOrderMatter(op: Operation, a: Schema, b: Schema)
    requires !ShouldSkip(op) && ValidToolName(op.operationId)
    requires op.responses == map["200" := Some(map[JSON := Some(Some(a))]), "+200" := Some(map[JSON := Some(Some(b))])]
    requires IsTopLevelObject(a) && IsTopLevelObject(b)
    requires Described(Project(a), "API response object") != Described(Project(b), "API response object")
    ensures var spec := Spec("localhost", map["/items" := map["GET" := op]]);
      NoClash(spec) && !GenerationIsFixed(spec, true)
  {
    var spec := Spec("localhost", map["/items" := map["GET" := op]]);
    OneOperation(spec, op, "/items", "GET");
    BothSpellingsMayWin(op.responses, JSON, a, b);
    OutputsMatter(spec, "/items", "GET", Some(a), Some(b));
  }

  lemma OneOperation(spec: Spec, op: Operation, path: string, verb: string)
    requires spec.paths == map[path := map[verb := op]] && !ShouldSkip(op) && ValidToolName(op.operationId)
    ensures Offered(spec, path, verb) && spec.paths[path][verb] == op && NoClash(spec)
  {
  }

  lemma OutputsMatter(spec: Spec, p: string, v: string, r: Option<Schema>, r': Option<Schema>)
    requires Offered(spec, p, v)
    requires Possible(spec.paths[p][v].responses, r) && Possible(spec.paths[p][v].responses, r')
    requires Advertised(r) != Advertised(r')
    ensures !GenerationIsFixed(spec, true)
  {
    var walk, walk' := OutputMakesOrderMatter(spec, p, v, r, r');
    if GenerationIsFixed(spec, true) {
      AnyFixedWalks(spec, true, walk, walk');
      assert false;
    }
  }

  // ------------------------------------------------------ what is promised

  /** A listed tool has structured output turned on exactly if it advertises an
      output schema. */
  ghost predicate Coherent(c: Catalog) {
    forall t :: t in c.tools ==>
      t.name in c.configs && (c.configs[t.name].response.useStructuredOutput <==> t.output.Some?)
  }

  predicate CoherentEntry(e: Entry) {
    e.config.response.useStructuredOutput <==> e.tool.output.Some?
  }

  lemma CoherentByEntries(c: Catalog)
    requires Agrees(c) && forall e :: Holds(c, e) ==> CoherentEntry(e)
    ensures Coherent(c)
  {
    forall t | t in c.tools ensures t.name in c.configs && (c.configs[t.name].response.useStructuredOutput <==> t.output.Some?) {
      assert Holds(c, Entry(t, c.configs[t.name]));
    }
  }

  lemma GeneratedIsCoherent(spec: Spec, structured: bool, walk: SpecWalk)
    ensures var c := RegisteredAll(EMPTY, Attempts(spec, structured, walk));
      Agrees(c) && Coherent(c) && (!structured ==> forall t :: t in c.tools ==> t.output == None)
  {
    var entries := Attempts(spec, structured, walk);
    var c := RegisteredAll(EMPTY, entries);
    AlwaysAgrees(EMPTY, entries);
    forall e | Holds(c, e) ensures CoherentEntry(e) && (!structured ==> e.tool.output == None) {
      FirstRegistrationWins(EMPTY, entries, e);
      AttemptsMembers(spec, structured, walk, e);
    }
    CoherentByEntries(c);
    forall t | t in c.tools && !structured ensures t.output == None {
      assert Holds(c, Entry(t, c.configs[t.name]));
    }
  }

  lemma MergeKeepsCoherence(c: Catalog, loaded: Catalog)
    requires Agrees(c) && Agrees(loaded) && Coherent(c) && Coherent(loaded)
    ensures Coherent(RegisteredAll(c, EntriesOf(loaded)))
  {
    MergeIsLeftBiasedUnion(c, loaded);
    CoherentByEntries(RegisteredAll(c, EntriesOf(loaded)));
  }

  lemma FilterKeepsCoherence(c: Catalog, names: set<string>)
    requires Coherent(c)
    ensures Coherent(Restricted(c, names))
  {
    AllowedMembers(c.tools, names);
  }

  /** One spec file as loaded. */
  datatype Source = Source(spec: Spec, walk: SpecWalk)

  /** What one file generates. */
  function LoadedFrom(source: Source, structured: bool): (c: Catalog)
    ensures Agrees(c)
  {
    var attempts := Attempts(source.spec, structured, source.walk);
    AlwaysAgrees(EMPTY, attempts);
    RegisteredAll(EMPTY, attempts)
  }

  /** The registry after loading the files one after the other. */
  function Loaded(sources: seq<Source>, structured: bool): (c: Catalog)
    ensures Agrees(c)
  {
    if sources == [] then EMPTY
    else
      var last := sources[|sources| - 1];
      var before := Loaded(sources[..|sources| - 1], structured);
      var generated := LoadedFrom(last, structured);
      AlwaysAgrees(before, EntriesOf(generated));
      RegisteredAll(before, EntriesOf(generated))
  }

  lemma LoadedOneMore(sources: seq<Source>, i: nat, structured: bool)
    requires i < |sources|
    ensures Loaded(sources[..i + 1], structured) == RegisteredAll(Loaded(sources[..i], structured),
      EntriesOf(LoadedFrom(sources[i], structured)))
  {
    assert sources[..i + 1][..i] == sources[..i];
  }

  lemma SourcesOneMore(sources: seq<Source>, i: nat)
    requires i < |sources|
    ensures sources[i] in sources
    ensures forall source :: source in sources[..i + 1] <==> source in sources[..i] || source == sources[i]
  {
    assert sources[..i + 1] == sources[..i] + [sources[i]];
  }

  /** The body of the loading loop. */
  method LoadSource(all: ToolRegistry, source: Source, structured: bool, order: Order) returns (panicked: bool)
    requires Agrees(all.Value())
    modifies all
    ensures Agrees(all.Value())
    ensures panicked <==> Crashes(source.spec)
    ensures !panicked ==> all.Value() == RegisteredAll(old(all.Value()), EntriesOf(LoadedFrom(source, structured)))
  {
    var loaded := GenerateMCPToolsFromSpec(source.spec, structured, source.walk, order);
    if loaded.None? {
      return true;
    }
    RegisterLoadedTools(all, loaded.value);
    return false;
  }

  datatype LoadOutcome = Panicked | NoTools | LoadedTools(registry: ToolRegistry)

  /** The loading loop: each source is generated on its own and then merged. It
      panics exactly if generating some source does. No tools at all is an error. */
  method LoadTools(sources: seq<Source>, structured: bool, order: Order) returns (outcome: LoadOutcome)
    ensures outcome.Panicked? <==> exists source :: source in sources && Crashes(source.spec)
    ensures outcome.NoTools? ==> Loaded(sources, structured).tools == []
    ensures outcome.LoadedTools? ==>
      outcome.registry.Value() == Loaded(sources, structured) && Loaded(sources, structured).tools != []
  {
    var all := new ToolRegistry();
    for i := 0 to |sources|
      invariant fresh(all) && Agrees(all.Value()) && all.Value() == Loaded(sources[..i], structured)
      invariant forall source :: source in sources[..i] ==> !Crashes(source.spec)
    {
      LoadedOneMore(sources, i, structured);
      SourcesOneMore(sources, i);
      var panicked := LoadSource(all, sources[i], structured, order);
      if panicked {
        return Panicked;
      }
    }
    assert sources[..|sources|] == sources;
    outcome := if |all.tools| == 0 then NoTools else LoadedTools(all);
  }

  /** Through generation, merging and filtering, structured output is on exactly
      for the tools that advertise an output schema. */
  lemma {:induction false} LoadedIsCoherent(sources: seq<Source>, structured: bool, names: set<string>)
    ensures Coherent(Loaded(sources, structured)) && Coherent(Restricted(Loaded(sources, structured), names))
  {
    if sources != [] {
      var last := sources[|sources| - 1];
      var generated := LoadedFrom(last, structured);
      LoadedIsCoherent(sources[..|sources| - 1], structured, names);
      GeneratedIsCoherent(last.spec, structured, last.walk);
      MergeKeepsCoherence(Loaded(sources[..|sources| - 1], structured), generated);
    }
    FilterKeepsCoherence(Loaded(sources, structured), names);
  }

  /** With structured output turned off no loaded tool advertises an output schema. */
  lemma {:induction false} LoadedAdvertisesNoOutput(sources: seq<Source>, t: Tool)
    requires t in Loaded(sources, false).tools
    ensures t.output == None
  {
    if sources == [] {
      assert false;
    } else {
      var last := sources[|sources| - 1];
      var before, generated := Loaded(sources[..|sources| - 1], false), LoadedFrom(last, false);
      var e := Entry(t, Loaded(sources, false).configs[t.name]);
      assert Holds(Loaded(sources, false), e);
      MergedEntries(before, generated, e);
      if Holds(before, e) {
        LoadedAdvertisesNoOutput(sources[..|sources| - 1], t);
      } else {
        GeneratedIsCoherent(last.spec, false, last.walk);
      }
    }
  }

  /** What a server offers: the tools loaded from its documents, or the allowed
      ones of them. */
  function Offers(sources: seq<Source>, structured: bool, allowed: Option<set<string>>): Catalog {
    match allowed
    case None => Loaded(sources, structured)
    case Some(names) => Restricted(Loaded(sources, structured), names)
  }

  lemma OffersAreSound(sources: seq<Source>, structured: bool, allowed: Option<set<string>>)
    ensures var c := Offers(sources, structured, allowed);
      Agrees(c) && Coherent(c) && (!structured ==> forall t :: t in c.tools ==> t.output == None)
  {
    LoadedIsCoherent(sources, structured, if allowed.Some? then allowed.value else {});
    if allowed.Some? {
      RestrictedAgrees(Loaded(sources, structured), allowed.value);
      AllowedMembers(Loaded(sources, structured).tools, allowed.value);
    }
    forall t | t in Offers(sources, structured, allowed).tools && !structured ensures t.output == None {
      LoadedAdvertisesNoOutput(sources, t);
    }
  }

  lemma {:induction false} RequiredAreGathered(parameters: seq<ParamSpec>, name: string)
    ensures var g := Gather(parameters);
      && (name in g.endpoint ==> g.endpoint[name].Parameter?)
      && (name in g.endpoint && g.endpoint[name].required ==> name in g.required)
      && (name in g.endpoint <==> name in g.properties)
  {
    if parameters != [] {
      RequiredAreGathered(parameters[..|parameters| - 1], name);
    }
  }

  /** The advertised input schema lists every parameter the endpoint requires, so
      arguments that have what it requires lack no required parameter. */
  lemma AdvertisedRequiredSuffices(spec: Spec, path: string, verb: string, structured: bool, inner: InnerWalk, given: set<string>)
    requires path in spec.paths && verb in spec.paths[path]
    requires var tool := EntryAt(spec, path, verb, structured, inner).tool; forall n :: n in tool.input.required ==> n in given
    ensures var endpoint := EntryAt(spec, path, verb, structured, inner).config.endpoint;
      forall n :: n in endpoint.parameters && endpoint.parameters[n].Parameter? && endpoint.parameters[n].required ==> n in given
  {
    var op := spec.paths[path][verb];
    var g := Gather(op.parameters);
    forall n | n in g.endpoint ensures g.endpoint[n].Parameter? && (g.endpoint[n].required ==> n in given) {
      RequiredAreGathered(op.parameters, n);
      assert n in InputOf(op).properties;
    }
  }

  // --------------------------------------------- the tool of an operation

  /** The parameter at `k` is the last one of its name; it is the one that counts. */
  ghost predicate LastOfItsName(parameters: seq<ParamSpec>, k: int) {
    0 <= k < |parameters| && forall j :: k < j < |parameters| ==> parameters[j].name != parameters[k].name
  }

  /** A parameter's schema: its own, projected, under its own description if it has
      one. */
  ghost predicate DescribesParameter(p: ParamSpec, s: JsonSchema) {
    && s.description == (if p.description != "" then Some(p.description)
                         else if p.schema.Some? && p.schema.value.description != "" then Some(p.schema.value.description)
                         else None)
    && s.(description := None) ==
         if p.schema.Some? then Project(p.schema.value).(description := None)
         else JsonSchema(None, None, None, None, NoJsonProperties, None)
  }

  lemma {:induction false} GatheredParameter(parameters: seq<ParamSpec>, k: int)
    requires LastOfItsName(parameters, k)
    ensures var p, g := parameters[k], Gather(parameters);
      && p.name in g.endpoint && g.endpoint[p.name] == Parameter(p.location, p.required)
      && p.name in g.properties && DescribesParameter(p, g.properties[p.name])
  {
    var last := |parameters| - 1;
    if k < last {
      GatheredParameter(parameters[..last], k);
      assert parameters[last].name != parameters[k].name;
    }
  }

  lemma {:induction false} OnlyParametersAreGathered(parameters: seq<ParamSpec>, name: string)
    ensures var g := Gather(parameters);
      && (name in g.endpoint <==> exists k :: LastOfItsName(parameters, k) && parameters[k].name == name)
      && (name in g.properties <==> name in g.endpoint)
  {
    if parameters != [] {
      var last := |parameters| - 1;
      var init := parameters[..last];
      OnlyParametersAreGathered(init, name);
      if parameters[last].name == name {
        assert LastOfItsName(parameters, last);
      } else {
        if exists k :: LastOfItsName(init, k) && init[k].name == name {
          var k :| LastOfItsName(init, k) && init[k].name == name;
          assert LastOfItsName(parameters, k);
        }
        if exists k :: LastOfItsName(parameters, k) && parameters[k].name == name {
          var k :| LastOfItsName(parameters, k) && parameters[k].name == name;
          assert LastOfItsName(init, k);
        }
      }
    }
  }

  /** The names of the required parameters, first to last. */
  function RequiredNames(parameters: seq<ParamSpec>): seq<string> {
    if parameters == [] then []
    else (if parameters[0].required then [parameters[0].name] else []) + RequiredNames(parameters[1..])
  }

  lemma {:induction false} RequiredNamesSnoc(init: seq<ParamSpec>, last: ParamSpec)
    ensures RequiredNames(init + [last]) == RequiredNames(init) + (if last.required then [last.name] else [])
  {
    if init == [] {
      assert [last][1..] == [];
      assert init + [last] == [last];
    } else {
      assert (init + [last])[1..] == init[1..] + [last] && (init + [last])[0] == init[0];
      RequiredNamesSnoc(init[1..], last);
      Associates(if init[0].required then [init[0].name] else [], RequiredNames(init[1..]), if last.required then [last.name] else []);
    }
  }

  lemma {:induction false} GatheredRequired(parameters: seq<ParamSpec>)
    ensures Gather(parameters).required == RequiredNames(parameters)
  {
    if parameters != [] {
      var last := |parameters| - 1;
      GatheredRequired(parameters[..last]);
      RequiredNamesSnoc(parameters[..last], parameters[last]);
      assert parameters == parameters[..last] + [parameters[last]];
    }
  }

  /** The schema of the body argument: that of the JSON request body, projected and
      described as the request body if it has no description; or an object. */
  ghost predicate DescribesBody(body: RequestBody, s: JsonSchema) {
    if "application/json" in body.content && body.content["application/json"].Some? && body.content["application/json"].value.Some? then
      var schema := body.content["application/json"].value.value;
      && s.description == Some(if schema.description != "" then schema.description else "Request body")
      && s.(description := None) == Project(schema).(description := None)
    else s == JsonSchema(Some(["object"]), Some("Request body"), None, None, NoJsonProperties, None)
  }

  /** What an operation's tool asks for: a property for each parameter and one for
      the body, and of them the required ones; nothing at all if there are none. */
  lemma AdvertisedInput(op: Operation)
    ensures var input := InputOf(op);
      && (forall k :: LastOfItsName(op.parameters, k) && (op.body.None? || op.parameters[k].name != "body") ==>
            op.parameters[k].name in input.properties
            && DescribesParameter(op.parameters[k], input.properties[op.parameters[k].name]))
      && (op.body.Some? ==> "body" in input.properties && DescribesBody(op.body.value, input.properties["body"]))
      && (forall n :: n in input.properties ==>
            (n == "body" && op.body.Some?) || exists k :: LastOfItsName(op.parameters, k) && op.parameters[k].name == n)
      && input.required == RequiredNames(op.parameters) + (if op.body.Some? && op.body.value.required then ["body"] else [])
      && (input.closed <==> op.parameters == [] && op.body.None?)
  {
    forall k | LastOfItsName(op.parameters, k)
      ensures op.parameters[k].name in Gather(op.parameters).properties
      ensures DescribesParameter(op.parameters[k], Gather(op.parameters).properties[op.parameters[k].name])
    {
      GatheredParameter(op.parameters, k);
    }
    forall n ensures n in Gather(op.parameters).properties <==> exists k :: LastOfItsName(op.parameters, k) && op.parameters[k].name == n {
      OnlyParametersAreGathered(op.parameters, n);
    }
    GatheredRequired(op.parameters);
    if op.parameters != [] {
      assert LastOfItsName(op.parameters, |op.parameters| - 1);
    }
  }

  lemma {:induction false} ContainsSomewhere(s: string, part: string)
    ensures Contains(s, part) <==> exists i :: 0 <= i <= |s| && part <= s[i..]
  {
    if part <= s {
      assert part <= s[0..];
    } else if s != "" {
      ContainsSomewhere(s[1..], part);
      if Contains(s[1..], part) {
        var i :| 0 <= i <= |s[1..]| && part <= s[1..][i..];
        assert s[i + 1..] == s[1..][i..];
      }
      if exists i :: 0 <= i <= |s| && part <= s[i..] {
        var i :| 0 <= i <= |s| && part <= s[i..];
        assert i > 0;
        assert s[1..][i - 1..] == s[i..];
      }
    }
  }

  /** A type of this schema has "object" in its name. */
  ghost predicate IsObjectSchema(s: Schema) {
    s.types.Some? && exists t, i :: t in s.types.value && 0 <= i <= |t| && "object" <= t[i..]
  }

  /** What is advertised as the output: an object schema, projected and described as
      the API's response if it has no description. */
  lemma AdvertisedOutput(choice: Option<Schema>)
    ensures Advertised(choice).Some? <==> choice.Some? && IsObjectSchema(choice.value)
    ensures Advertised(choice).Some? ==>
      && Advertised(choice).value.description ==
           Some(if choice.value.description != "" then choice.value.description else "API response object")
      && Advertised(choice).value.(description := None) == Project(choice.value).(description := None)
  {
    if choice.Some? && choice.value.types.Some? {
      forall t | t in choice.value.types.value
        ensures Contains(t, OBJECT) <==> exists i :: 0 <= i <= |t| && "object" <= t[i..]
      {
        ContainsSomewhere(t, OBJECT);
      }
    }
  }

  /** Which operations become no tool: those without an operationId, and those with
      a request body of which no media type starts with application/json. */
  lemma SkippedOperations(op: Operation)
    ensures ShouldSkip(op) <==>
      op.operationId == "" || (op.body.Some? && forall t :: t in op.body.value.content ==> !("application/json" <= t))
  {
  }

  lemma {:induction false} UpperOfLower(verb: string)
    requires forall c :: c in verb ==> 'A' <= c <= 'Z'
    ensures ToUpper(ToLower(verb)) == verb
  {
    forall i | 0 <= i < |verb| ensures ToUpper(ToLower(verb))[i] == verb[i] {
      assert verb[i] in verb;
    }
  }

  /** The tool and the endpoint of an operation, field by field. */
  lemma EntryOfOperation(spec: Spec, path: string, verb: string, structured: bool, inner: InnerWalk)
    requires UpperCaseMethods(spec) && path in spec.paths && verb in spec.paths[path]
    ensures var op, e := spec.paths[path][verb], EntryAt(spec, path, verb, structured, inner);
      && e.tool.name == op.operationId && e.tool.title == op.summary && e.tool.description == op.description
      && e.tool.input == InputOf(op)
      && e.tool.output == (if structured then OutputOf(op, inner.statuses(path, verb), inner.mediaTypes(path, verb)) else None)
      && e.config.response.useStructuredOutput == e.tool.output.Some?
      && e.config.endpoint.host == spec.host && e.config.endpoint.pathTemplate == path
      && ToUpper(e.config.endpoint.httpMethod) == verb
      && e.config.endpoint.contentType ==
           (if op.body.Some? && "application/json" in op.body.value.content then "application/json" else "")
      && (forall k :: LastOfItsName(op.parameters, k) ==>
            op.parameters[k].name in e.config.endpoint.parameters
            && e.config.endpoint.parameters[op.parameters[k].name] == Parameter(op.parameters[k].location, op.parameters[k].required))
      && (forall n :: n in e.config.endpoint.parameters ==> exists k :: LastOfItsName(op.parameters, k) && op.parameters[k].name == n)
  {
    var op := spec.paths[path][verb];
    UpperOfLower(verb);
    forall k | LastOfItsName(op.parameters, k)
      ensures op.parameters[k].name in Gather(op.parameters).endpoint
      ensures Gather(op.parameters).endpoint[op.parameters[k].name] == Parameter(op.parameters[k].location, op.parameters[k].required)
    {
      GatheredParameter(op.parameters, k);
    }
    forall n | n in Gather(op.parameters).endpoint ensures exists k :: LastOfItsName(op.parameters, k) && op.parameters[k].name == n {
      OnlyParametersAreGathered(op.parameters, n);
    }
  }

  /** An argument is sent where the document says: put for its placeholder in the
      path, in the query, or as a header. */
  ghost predicate SentWhereDocumented(format: E.Format, p: ParamSpec, value: Rpc.Json, values: map<string, string>, d: E.Draft) {
    && (p.location == "path" ==> p.name in values && E.WrittenAs(format, value, values[p.name]))
    && (p.location == "query" && value != Rpc.Array([]) ==> p.name in d.query && E.SentInQuery(format, value, d.query[p.name]))
    && (p.location == "header" ==> p.name in d.headers && E.WrittenAs(format, value, d.headers[p.name]))
  }

  lemma DocumentedArgumentsAreSent(spec: Spec, path: string, verb: string, structured: bool, inner: InnerWalk,
                                   format: E.Format, arguments: E.Arguments, o: Order) returns (values: map<string, string>)
    requires UpperCaseMethods(spec) && path in spec.paths && verb in spec.paths[path]
    requires var endpoint := EntryAt(spec, path, verb, structured, inner).config.endpoint;
      E.Built(format, endpoint, arguments, o(endpoint.parameters.Keys)).Done?
    ensures var op, endpoint := spec.paths[path][verb], EntryAt(spec, path, verb, structured, inner).config.endpoint;
            var d := E.Built(format, endpoint, arguments, o(endpoint.parameters.Keys)).value;
      && d.path == P.ReplacedInOrder(path, o(endpoint.parameters.Keys), values)
      && forall k :: LastOfItsName(op.parameters, k) && op.parameters[k].name in arguments ==>
           SentWhereDocumented(format, op.parameters[k], arguments[op.parameters[k].name], values, d)
  {
    EntryOfOperation(spec, path, verb, structured, inner);
    var op, endpoint := spec.paths[path][verb], EntryAt(spec, path, verb, structured, inner).config.endpoint;
    values := E.BuiltSaysArguments(format, endpoint, arguments, o);
    var d := E.Built(format, endpoint, arguments, o(endpoint.parameters.Keys)).value;
    forall k | LastOfItsName(op.parameters, k) && op.parameters[k].name in arguments
      ensures SentWhereDocumented(format, op.parameters[k], arguments[op.parameters[k].name], values, d)
    {
      var p := op.parameters[k];
      assert E.Declared(endpoint, p.name, p.location);
    }
  }

  /** An operation makes the generation panic exactly if its request body lists
      application/json without a schema entry. */
  lemma PanickingOperations(op: Operation)
    ensures Panics(op) <==>
      op.body.Some? && "application/json" in op.body.value.content && op.body.value.content["application/json"].None?
  {
  }
}

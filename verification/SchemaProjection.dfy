/** From OpenAPI schemas to the JSON schemas of a tool: `openApiSchemaToMap`. */
module SchemaProjection {
  import opened Common
  import opened Rpc

  /** A resolved OpenAPI Schema Object. `others` is what all the keywords the
      projection does not copy demand of a value. */
  datatype Schema = Schema(
    types: Option<seq<string>>,
    description: string,
    enumeration: Option<seq<Json>>,
    required: seq<string>,
    properties: Properties,
    items: Option<Schema>,
    nullable: bool,
    others: Json -> bool)

  /** The `properties` keyword, if present; an unresolved reference is `None`. */
  datatype Properties = NoProperties | Properties(refs: map<string, Option<Schema>>)

  /** The projected map, keyword by keyword; `None` is an absent key. */
  datatype JsonSchema = JsonSchema(
    types: Option<seq<string>>,
    description: Option<string>,
    enumeration: Option<seq<Json>>,
    required: Option<seq<string>>,
    properties: JsonProperties,
    items: Option<JsonSchema>)

  datatype JsonProperties = NoJsonProperties | JsonProperties(schemas: map<string, JsonSchema>)

  function Project(s: Schema): JsonSchema {
    JsonSchema(
      s.types,
      if s.description != "" then Some(s.description) else None,
      s.enumeration,
      if s.required != [] then Some(s.required) else None,
      ProjectAll(s.properties),
      if s.items.Some? then Some(Project(s.items.value)) else None)
  }

  function ProjectAll(properties: Properties): JsonProperties {
    match properties
    case NoProperties => NoJsonProperties
    case Properties(refs) =>
      JsonProperties(map k | k in refs && refs[k].Some? :: Project(refs[k].value))
  }

  /** The projection keyword by keyword: those that are kept, absent when empty. */
  lemma ProjectedKeywords(s: Schema)
    ensures Project(s).types == s.types && Project(s).enumeration == s.enumeration
    ensures Project(s).description == None <==> s.description == ""
    ensures forall d :: Project(s).description == Some(d) ==> d == s.description
    ensures Project(s).required == None <==> s.required == []
    ensures forall names :: Project(s).required == Some(names) ==> names == s.required
    ensures Project(s).items == None <==> s.items == None
    ensures forall items :: s.items == Some(items) ==> Project(s).items == Some(Project(items))
    ensures Project(s).properties == NoJsonProperties <==> s.properties == NoProperties
    ensures forall refs, k, property :: s.properties == Properties(refs) && k in refs && refs[k] == Some(property) ==>
      k in ProjectAll(s.properties).schemas && ProjectAll(s.properties).schemas[k] == Project(property)
    ensures Project(s).properties == ProjectAll(s.properties)
  {
  }

  method OpenApiSchemaToMap(s: Schema, order: Order) returns (result: JsonSchema)
    ensures result == Project(s)
    decreases s
  {
    result := JsonSchema(None, None, None, None, NoJsonProperties, None);
    if s.types.Some? {
      result := result.(types := s.types);
    }
    if s.description != "" {
      result := result.(description := Some(s.description));
    }
    if s.enumeration.Some? {
      result := result.(enumeration := s.enumeration);
    }
    if |s.required| > 0 {
      result := result.(required := Some(s.required));
    }
    if s.properties.Properties? {
      var props := PropertiesToMap(s.properties, order);
      result := result.(properties := JsonProperties(props));
    }
    if s.items.Some? {
      var projected := OpenApiSchemaToMap(s.items.value, order);
      result := result.(items := Some(projected));
    }
  }

  /** The projections of the properties named so far. */
  ghost predicate ProjectedSoFar(refs: map<string, Option<Schema>>, names: seq<string>, props: map<string, JsonSchema>) {
    && (forall k :: k in props <==> k in names && k in refs && refs[k].Some?)
    && (forall k :: k in props ==> k in refs && refs[k].Some? && props[k] == Project(refs[k].value))
  }

  lemma ProjectedOneMore(refs: map<string, Option<Schema>>, names: seq<string>, i: nat, props: map<string, JsonSchema>)
    requires i < |names| && names[i] in refs && ProjectedSoFar(refs, names[..i], props)
    ensures ProjectedSoFar(refs, names[..i + 1],
      if refs[names[i]].Some? then props[names[i] := Project(refs[names[i]].value)] else props)
  {
    assert names[..i + 1] == names[..i] + [names[i]];
    assert forall k :: k in names[..i + 1] <==> k in names[..i] || k == names[i];
  }

  lemma ProjectedAll(refs: map<string, Option<Schema>>, names: seq<string>, props: map<string, JsonSchema>)
    requires ProjectedSoFar(refs, names, props) && forall k :: k in refs ==> k in names
    ensures JsonProperties(props) == ProjectAll(Properties(refs))
  {
    var all := map k | k in refs && refs[k].Some? :: Project(refs[k].value);
    assert props == all;
  }

  method PropertiesToMap(properties: Properties, order: Order) returns (props: map<string, JsonSchema>)
    requires properties.Properties?
    ensures JsonProperties(props) == ProjectAll(properties)
    decreases properties
  {
    var refs := properties.refs;
    var names := order(refs.Keys);
    assert forall k :: k in names <==> k in refs.Keys;
    props := map[];
    for i := 0 to |names|
      invariant ProjectedSoFar(refs, names[..i], props)
    {
      var name := names[i];
      assert name in names;
      ProjectedOneMore(refs, names, i, props);
      if refs[name].Some? {
        var projected := OpenApiSchemaToMap(refs[name].value, order);
        props := props[name := projected];
      }
    }
    assert names[..|names|] == names;
    ProjectedAll(refs, names, props);
  }

  // ---------------------------------------------------------------- validity

  predicate TypeMatches(t: string, v: Json) {
    match v
    case Null => t == "null"
    case Boolean(_) => t == "boolean"
    case Number(n) => t == "number" || (t == "integer" && n.Floor as real == n)
    case Text(_) => t == "string"
    case Array(_) => t == "array"
    case Object(_) => t == "object"
  }

  predicate SomeTypeMatches(types: seq<string>, v: Json) {
    exists t :: t in types && TypeMatches(t, v)
  }

  /** Validity against a Schema Object of OpenAPI 3.0.4: `nullable` adds null to
      the listed types, and only to them. */
  ghost predicate Accepts(s: Schema, v: Json) {
    && (s.types.Some? ==> SomeTypeMatches(s.types.value, v) || (s.nullable && v.Null?))
    && (s.enumeration.Some? ==> v in s.enumeration.value)
    && (v.Object? ==> forall k :: k in s.required ==> k in v.fields)
    && (v.Object? && s.properties.Properties? ==>
          forall k :: k in s.properties.refs && k in v.fields && s.properties.refs[k].Some? ==>
            Accepts(s.properties.refs[k].value, v.fields[k]))
    && (v.Array? && s.items.Some? ==> forall e :: e in v.elements ==> Accepts(s.items.value, e))
    && s.others(v)
  }

  /** Validity against the projected JSON schema. */
  ghost predicate Satisfies(v: Json, p: JsonSchema)
    decreases p
  {
    && (p.types.Some? ==> SomeTypeMatches(p.types.value, v))
    && (p.enumeration.Some? ==> v in p.enumeration.value)
    && (v.Object? && p.required.Some? ==> forall k :: k in p.required.value ==> k in v.fields)
    && (v.Object? && p.properties.JsonProperties? ==>
          forall k :: k in p.properties.schemas && k in v.fields ==> Satisfies(v.fields[k], p.properties.schemas[k]))
    && (v.Array? && p.items.Some? ==> forall e :: e in v.elements ==> Satisfies(e, p.items.value))
  }

  /** `s` accepts null only because it is nullable, which the projection drops. */
  ghost predicate NullGap(s: Schema) {
    && s.nullable
    && s.types.Some? && "null" !in s.types.value
    && (s.enumeration.Some? ==> Null in s.enumeration.value)
    && s.others(Null)
  }

  ghost predicate NoNullGap(s: Schema) {
    && !NullGap(s)
    && (s.items.Some? ==> NoNullGap(s.items.value))
    && (s.properties.Properties? ==>
          forall k :: k in s.properties.refs && s.properties.refs[k].Some? ==> NoNullGap(s.properties.refs[k].value))
  }

  /** Every value `s` accepts satisfies its projection. */
  ghost predicate Sound(s: Schema) {
    forall v :: Accepts(s, v) ==> Satisfies(v, Project(s))
  }

  /** The same for `s` and every schema inside it. */
  ghost predicate SoundThroughout(s: Schema) {
    && Sound(s)
    && (s.items.Some? ==> SoundThroughout(s.items.value))
    && (s.properties.Properties? ==>
          forall k :: k in s.properties.refs && s.properties.refs[k].Some? ==> SoundThroughout(s.properties.refs[k].value))
  }

  /** The schema uses only keywords the projection keeps. */
  ghost predicate OnlyKeptKeywords(s: Schema) {
    && (forall v :: s.others(v))
    && (s.items.Some? ==> OnlyKeptKeywords(s.items.value))
    && (s.properties.Properties? ==>
          forall k :: k in s.properties.refs && s.properties.refs[k].Some? ==> OnlyKeptKeywords(s.properties.refs[k].value))
  }

  /** The projection only drops constraints: a valid value stays valid. */
  lemma {:induction false} ProjectionIsSound(s: Schema, v: Json)
    requires NoNullGap(s) && Accepts(s, v)
    ensures Satisfies(v, Project(s))
  {
    if v.Object? && s.properties.Properties? {
      forall k | k in s.properties.refs && k in v.fields && s.properties.refs[k].Some?
        ensures Satisfies(v.fields[k], Project(s.properties.refs[k].value))
      {
        ProjectionIsSound(s.properties.refs[k].value, v.fields[k]);
      }
    }
    if v.Array? && s.items.Some? {
      forall e | e in v.elements ensures Satisfies(e, Project(s.items.value)) {
        ProjectionIsSound(s.items.value, e);
      }
    }
  }

  /** It drops nothing when the schema uses only keywords it keeps. */
  lemma {:induction false} ProjectionIsExact(s: Schema, v: Json)
    requires NoNullGap(s) && OnlyKeptKeywords(s)
    ensures Accepts(s, v) <==> Satisfies(v, Project(s))
  {
    if v.Object? && s.properties.Properties? {
      forall k | k in s.properties.refs && k in v.fields && s.properties.refs[k].Some?
        ensures Accepts(s.properties.refs[k].value, v.fields[k])
           <==> Satisfies(v.fields[k], Project(s.properties.refs[k].value))
      {
        ProjectionIsExact(s.properties.refs[k].value, v.fields[k]);
      }
    }
    if v.Array? && s.items.Some? {
      forall e | e in v.elements ensures Accepts(s.items.value, e) <==> Satisfies(e, Project(s.items.value)) {
        ProjectionIsExact(s.items.value, e);
      }
    }
  }

  lemma GapIsUnsound(s: Schema)
    requires NullGap(s)
    ensures Accepts(s, Null) && !Satisfies(Null, Project(s))
  {
  }

  /** Soundness throughout a schema holds exactly when no schema in it has a
      null gap. */
  lemma {:induction false} SoundExactlyWithoutNullGap(s: Schema)
    ensures SoundThroughout(s) <==> NoNullGap(s)
  {
    if NullGap(s) {
      GapIsUnsound(s);
    }
    if NoNullGap(s) {
      forall v | Accepts(s, v) ensures Satisfies(v, Project(s)) {
        ProjectionIsSound(s, v);
      }
    }
    if s.items.Some? {
      SoundExactlyWithoutNullGap(s.items.value);
    }
    if s.properties.Properties? {
      forall k | k in s.properties.refs && s.properties.refs[k].Some?
        ensures SoundThroughout(s.properties.refs[k].value) <==> NoNullGap(s.properties.refs[k].value)
      {
        SoundExactlyWithoutNullGap(s.properties.refs[k].value);
      }
    }
  }

  /** A nullable string shows that the projection is not sound in general. */
  lemma NullableStringIsUnsound()
    ensures exists s, v :: Accepts(s, v) && !Satisfies(v, Project(s))
  {
    var s := Schema(Some(["string"]), "", None, [], NoProperties, None, true, v => true);
    GapIsUnsound(s);
  }

  // --------------------------------------- exactly which values are lost

  /** Somewhere in `v` a null stands where the schema lists types without null and
      is nullable. */
  ghost predicate HitsGap(s: Schema, v: Json) {
    || (v.Null? && s.nullable && s.types.Some? && "null" !in s.types.value)
    || (v.Array? && s.items.Some? && exists e :: e in v.elements && HitsGap(s.items.value, e))
    || (v.Object? && s.properties.Properties? &&
          exists k :: k in s.properties.refs && k in v.fields && s.properties.refs[k].Some? && HitsGap(s.properties.refs[k].value, v.fields[k]))
  }

  /** Whatever keywords a schema uses, the values it accepts and its projection does
      not are exactly those that have such a null. */
  lemma {:induction false} LostExactlyAtGaps(s: Schema, v: Json)
    requires Accepts(s, v)
    ensures Satisfies(v, Project(s)) <==> !HitsGap(s, v)
  {
    if v.Object? && s.properties.Properties? {
      forall k | k in s.properties.refs && k in v.fields && s.properties.refs[k].Some?
        ensures Satisfies(v.fields[k], Project(s.properties.refs[k].value)) <==> !HitsGap(s.properties.refs[k].value, v.fields[k])
      {
        LostExactlyAtGaps(s.properties.refs[k].value, v.fields[k]);
      }
      assert Project(s).properties == ProjectAll(s.properties);
    }
    if v.Array? && s.items.Some? {
      forall e | e in v.elements ensures Satisfies(e, Project(s.items.value)) <==> !HitsGap(s.items.value, e) {
        LostExactlyAtGaps(s.items.value, e);
      }
    }
    if v.Null? && s.types.Some? {
      assert "null" in s.types.value ==> TypeMatches("null", v);
    }
  }

  // -------------------------------------- exactly which schemas are sound

  predicate Resolves(s: Schema, k: string) {
    s.properties.Properties? && k in s.properties.refs && s.properties.refs[k].Some?
  }

  predicate Allows(s: Schema, t: string) {
    s.types.Some? ==> t in s.types.value
  }

  /** The types that have a value whatever else a schema without enumeration says. */
  const EASY_TYPES := ["null", "boolean", "number", "integer", "string", "array"]

  function EasyValue(t: string): Json
    requires t in EASY_TYPES
  {
    if t == "null" then Null
    else if t == "boolean" then Boolean(true)
    else if t == "string" then Text("")
    else if t == "array" then Array([])
    else Number(0.0)
  }

  /** Some value is accepted, judged from the keywords. */
  ghost predicate Inhabited(s: Schema)
    decreases s, 1
  {
    if s.enumeration.Some? then exists v :: v in s.enumeration.value && Accepts(s, v)
    else s.nullable || (exists t :: t in EASY_TYPES && Allows(s, t)) || (Allows(s, "object") && Fillable(s))
  }

  /** Every required property can be given a value. */
  ghost predicate Fillable(s: Schema)
    decreases s, 0
  {
    forall k :: k in s.required && Resolves(s, k) ==> Inhabited(s.properties.refs[k].value)
  }

  /** A null gap that some accepted value reaches, judged from the keywords. */
  ghost predicate Leaks(s: Schema) {
    if s.enumeration.Some? then exists v :: v in s.enumeration.value && Accepts(s, v) && HitsGap(s, v)
    else
      || NullGap(s)
      || (Allows(s, "array") && s.items.Some? && Leaks(s.items.value))
      || (Allows(s, "object") && Fillable(s) && exists k :: Resolves(s, k) && Leaks(s.properties.refs[k].value))
  }

  ghost predicate Acceptable(s: Schema) {
    exists v :: Accepts(s, v)
  }

  ghost function AnyAccepted(s: Schema): (v: Json)
    requires Acceptable(s)
    ensures Accepts(s, v)
  {
    var v :| Accepts(s, v);
    v
  }

  /** An object with just these fields and the required ones. */
  ghost function Filled(s: Schema, given: map<string, Json>): map<string, Json>
    requires forall k :: k in s.required && Resolves(s, k) ==> Acceptable(s.properties.refs[k].value)
  {
    (map k | k in s.required :: if Resolves(s, k) then AnyAccepted(s.properties.refs[k].value) else Null) + given
  }

  lemma FilledIsAccepted(s: Schema, given: map<string, Json>)
    requires OnlyKeptKeywords(s) && s.enumeration.None? && Allows(s, "object")
    requires forall k :: k in s.required && Resolves(s, k) ==> Acceptable(s.properties.refs[k].value)
    requires forall k :: k in given && Resolves(s, k) ==> Accepts(s.properties.refs[k].value, given[k])
    ensures Accepts(s, Object(Filled(s, given)))
  {
    assert TypeMatches("object", Object(Filled(s, given)));
  }

  lemma {:induction false} InhabitedIsAcceptable(s: Schema)
    requires OnlyKeptKeywords(s)
    ensures Inhabited(s) <==> Acceptable(s)
  {
    forall k | k in s.required && Resolves(s, k)
      ensures Inhabited(s.properties.refs[k].value) <==> Acceptable(s.properties.refs[k].value)
    {
      InhabitedIsAcceptable(s.properties.refs[k].value);
    }
    if Acceptable(s) {
      var v :| Accepts(s, v);
      AcceptedIsInhabited(s, v);
    }
    if Inhabited(s) && s.enumeration.None? {
      if s.nullable {
        assert Accepts(s, Null);
      } else if exists t :: t in EASY_TYPES && Allows(s, t) {
        var t :| t in EASY_TYPES && Allows(s, t);
        assert TypeMatches(t, EasyValue(t));
        assert Accepts(s, EasyValue(t));
      } else {
        assert Fillable(s);
        forall k | k in s.required && Resolves(s, k) ensures Acceptable(s.properties.refs[k].value) {
          assert Inhabited(s.properties.refs[k].value);
        }
        FilledIsAccepted(s, map[]);
      }
    }
  }

  lemma AcceptedIsInhabited(s: Schema, v: Json)
    requires Accepts(s, v)
    requires forall k :: k in s.required && Resolves(s, k) && Acceptable(s.properties.refs[k].value) ==>
      Inhabited(s.properties.refs[k].value)
    ensures Inhabited(s)
    ensures v.Object? && s.enumeration.None? ==> Allows(s, "object") && Fillable(s)
  {
    if s.enumeration.None? && v.Object? {
      forall k | k in s.required && Resolves(s, k) ensures Inhabited(s.properties.refs[k].value) {
        assert Accepts(s.properties.refs[k].value, v.fields[k]);
      }
    } else if s.enumeration.None? && s.types.Some? && !s.nullable {
      var t :| t in s.types.value && TypeMatches(t, v);
      assert t in EASY_TYPES && Allows(s, t);
    } else if s.enumeration.None? && !s.nullable {
      assert "null" in EASY_TYPES && Allows(s, "null");
    }
  }

  /** A leak is reached by a value that the schema accepts and its projection does
      not. */
  lemma {:induction false} LeakIsUnsound(s: Schema)
    requires OnlyKeptKeywords(s) && Leaks(s)
    ensures !Sound(s)
  {
    if s.enumeration.None? && !NullGap(s) {
      if Allows(s, "array") && s.items.Some? && Leaks(s.items.value) {
        LeakIsUnsound(s.items.value);
        var e :| Accepts(s.items.value, e) && !Satisfies(e, Project(s.items.value));
        ElementLeaks(s, e);
      } else {
        var k :| Resolves(s, k) && Leaks(s.properties.refs[k].value);
        var property := s.properties.refs[k].value;
        LeakIsUnsound(property);
        var v :| Accepts(property, v) && !Satisfies(v, Project(property));
        forall k | k in s.required && Resolves(s, k) ensures Acceptable(s.properties.refs[k].value) {
          InhabitedIsAcceptable(s.properties.refs[k].value);
        }
        FieldLeaks(s, k, v);
      }
    } else if s.enumeration.None? {
      GapIsUnsound(s);
    } else {
      var v :| v in s.enumeration.value && Accepts(s, v) && HitsGap(s, v);
      LostExactlyAtGaps(s, v);
    }
  }

  lemma ElementLeaks(s: Schema, e: Json)
    requires OnlyKeptKeywords(s) && s.enumeration.None? && Allows(s, "array") && s.items.Some?
    requires Accepts(s.items.value, e) && !Satisfies(e, Project(s.items.value))
    ensures !Sound(s)
  {
    var v := Array([e]);
    assert TypeMatches("array", v);
    assert Accepts(s, v);
    assert v.elements[0] in v.elements;
    assert !Satisfies(v, Project(s));
  }

  lemma FieldLeaks(s: Schema, k: string, v: Json)
    requires OnlyKeptKeywords(s) && s.enumeration.None? && Allows(s, "object") && Resolves(s, k)
    requires forall r :: r in s.required && Resolves(s, r) ==> Acceptable(s.properties.refs[r].value)
    requires Accepts(s.properties.refs[k].value, v) && !Satisfies(v, Project(s.properties.refs[k].value))
    ensures !Sound(s)
  {
    FilledIsAccepted(s, map[k := v]);
    var o := Object(Filled(s, map[k := v]));
    assert o.fields[k] == v;
    assert Project(s).properties == ProjectAll(s.properties);
    assert Project(s).properties.schemas[k] == Project(s.properties.refs[k].value);
    assert !Satisfies(o, Project(s));
  }

  lemma UnsoundField(s: Schema, v: Json) returns (k: string)
    requires OnlyKeptKeywords(s) && Accepts(s, v) && !Satisfies(v, Project(s)) && s.enumeration.None? && !NullGap(s) && v.Object?
    ensures Resolves(s, k) && k in v.fields && Accepts(s.properties.refs[k].value, v.fields[k])
    ensures !Satisfies(v.fields[k], Project(s.properties.refs[k].value))
  {
    assert Project(s).properties == ProjectAll(s.properties);
    k :| k in Project(s).properties.schemas && k in v.fields && !Satisfies(v.fields[k], Project(s).properties.schemas[k]);
  }

  lemma {:induction false} UnsoundLeaks(s: Schema, v: Json)
    requires OnlyKeptKeywords(s) && Accepts(s, v) && !Satisfies(v, Project(s))
    ensures Leaks(s)
  {
    if s.enumeration.None? && !NullGap(s) {
      if v.Object? {
        forall k | k in s.required && Resolves(s, k)
          ensures Inhabited(s.properties.refs[k].value) <==> Acceptable(s.properties.refs[k].value)
        {
          InhabitedIsAcceptable(s.properties.refs[k].value);
        }
        AcceptedIsInhabited(s, v);
        var k := UnsoundField(s, v);
        UnsoundLeaks(s.properties.refs[k].value, v.fields[k]);
      } else {
        var e :| e in v.elements && !Satisfies(e, Project(s.items.value));
        UnsoundLeaks(s.items.value, e);
      }
    } else {
      LostExactlyAtGaps(s, v);
    }
  }

  /** For a schema that uses only keywords the projection keeps, the projection is
      sound exactly if no null gap inside it can be reached by an accepted value. */
  lemma SoundExactlyIfNoLeak(s: Schema)
    requires OnlyKeptKeywords(s)
    ensures Sound(s) <==> !Leaks(s)
  {
    if Leaks(s) {
      LeakIsUnsound(s);
    } else {
      forall v | Accepts(s, v) ensures Satisfies(v, Project(s)) {
        if !Satisfies(v, Project(s)) {
          UnsoundLeaks(s, v);
        }
      }
    }
  }
}

/** Which response schema becomes a tool's output schema:
    `findJSONSchemaFromResponses`. */
module ResponseChoice {
  import opened Common
  import opened Text
  import opened SchemaProjection

  /** A response's content: per media type, `None` if it has no schema and
      otherwise the schema, which is `None` when its reference is unresolved. */
  type Content = map<string, Option<Option<Schema>>>

  const JSON_PREFIX := "application/json"

  /** The schema of the first JSON media type visited. */
  function JSONSchemaInResponse(content: Content, visited: seq<string>): Option<Schema>
    requires forall k :: k in visited ==> k in content
  {
    if visited == [] then None
    else if JSON_PREFIX <= visited[0] && content[visited[0]].Some? then content[visited[0]].value
    else JSONSchemaInResponse(content, visited[1..])
  }

  /** Responses by status key; `None` is a response that does not resolve. */
  type Responses = map<string, Option<Content>>

  /** The orders in which the media types of each response are visited. */
  type MediaOrders = string -> Order

  /** The responses that have a JSON schema. */
  function Candidates(responses: Responses, mediaTypes: MediaOrders): map<string, Schema> {
    map k | k in responses && responses[k].Some?
            && JSONSchemaInResponse(responses[k].value, mediaTypes(k)(responses[k].value.Keys)).Some?
      :: JSONSchemaInResponse(responses[k].value, mediaTypes(k)(responses[k].value.Keys)).value
  }

  const DEFAULT := "default"

  predicate IsSuccess(status: string) {
    status != DEFAULT && Atoi(status).Some? && 200 <= Atoi(status).value <= 299
  }

  predicate IsOther(status: string) {
    status != DEFAULT && !IsSuccess(status)
  }

  /** Stands for sort.Ints followed by taking the first element. */
  function Least(codes: seq<int>): (least: int)
    requires codes != []
    ensures least in codes
    ensures forall c :: c in codes ==> least <= c
  {
    if |codes| == 1 then codes[0]
    else
      var rest := Least(codes[1..]);
      assert forall c :: c in codes ==> c == codes[0] || c in codes[1..];
      if codes[0] < rest then codes[0] else rest
  }

  /** What the loop has gathered: the default's schema, some other response's,
      and the 2xx codes with their schemas. */
  datatype Scan = Scan(
    defaultSchema: Option<Schema>,
    anySchema: Option<Schema>,
    codes: seq<int>,
    schemas: map<int, Schema>)

  const NOTHING_SCANNED := Scan(None, None, [], map[])

  function ScanStep(scan: Scan, status: string, schema: Schema): Scan {
    if status == DEFAULT then
      if scan.defaultSchema.None? then scan.(defaultSchema := Some(schema)) else scan
    else if IsSuccess(status) then
      var code := Atoi(status).value;
      scan.(codes := scan.codes + [code], schemas := scan.schemas[code := schema])
    else if scan.anySchema.None? then scan.(anySchema := Some(schema))
    else scan
  }

  function Scanned(candidates: map<string, Schema>, visited: seq<string>): Scan {
    if visited == [] then NOTHING_SCANNED
    else
      var scan := Scanned(candidates, visited[..|visited| - 1]);
      var status := visited[|visited| - 1];
      if status in candidates then ScanStep(scan, status, candidates[status]) else scan
  }

  lemma {:induction false} ScannedCodes(candidates: map<string, Schema>, visited: seq<string>)
    ensures forall c :: c in Scanned(candidates, visited).codes ==> c in Scanned(candidates, visited).schemas
  {
    if visited != [] {
      ScannedCodes(candidates, visited[..|visited| - 1]);
    }
  }

  function Selected(scan: Scan): Option<Schema>
    requires forall c :: c in scan.codes ==> c in scan.schemas
  {
    if scan.codes != [] then Some(scan.schemas[Least(scan.codes)])
    else if scan.defaultSchema.Some? then scan.defaultSchema
    else scan.anySchema
  }

  /** The schema the loop settles on when it visits the statuses in this order. */
  function Choice(candidates: map<string, Schema>, visited: seq<string>): Option<Schema> {
    ScannedCodes(candidates, visited);
    Selected(Scanned(candidates, visited))
  }

  /** The same from the responses themselves. */
  function Chosen(responses: Responses, statuses: Order, mediaTypes: MediaOrders): Option<Schema> {
    Choice(Candidates(responses, mediaTypes), statuses(responses.Keys))
  }

  method FindJSONSchemaFromResponses(responses: Responses, statuses: Order, mediaTypes: MediaOrders)
    returns (schema: Option<Schema>)
    ensures schema == Chosen(responses, statuses, mediaTypes)
  {
    var defaultSchema: Option<Schema> := None;
    var anySchema: Option<Schema> := None;
    var candidateCodes: seq<int> := [];
    var candidateSchemas: map<int, Schema> := map[];

    ghost var candidates := Candidates(responses, mediaTypes);
    var visited := statuses(responses.Keys);
    for i := 0 to |visited|
      invariant Scan(defaultSchema, anySchema, candidateCodes, candidateSchemas) == Scanned(candidates, visited[..i])
    {
      var status := visited[i];
      assert status in visited;
      assert visited[..i + 1][..i] == visited[..i];
      var response := responses[status];
      if response.None? {
        continue;
      }
      var jsonSchema := JSONSchemaInResponse(response.value, mediaTypes(status)(response.value.Keys));
      if jsonSchema.None? {
        continue;
      }
      var code := Atoi(status);
      if status == DEFAULT {
        if defaultSchema.None? {
          defaultSchema := jsonSchema;
        }
      } else if code.Some? && 200 <= code.value <= 299 {
        candidateCodes := candidateCodes + [code.value];
        candidateSchemas := candidateSchemas[code.value := jsonSchema.value];
      } else {
        if anySchema.None? {
          anySchema := jsonSchema;
        }
      }
    }
    assert visited[..|visited|] == visited;
    ScannedCodes(candidates, visited);
    if |candidateCodes| > 0 {
      schema := Some(candidateSchemas[Least(candidateCodes)]);
    } else if defaultSchema.Some? {
      schema := defaultSchema;
    } else {
      schema := anySchema;
    }
  }

  // ------------------------------------------------- what the choice means

  /** The keys any of which may win: those with the smallest 2xx code, else the
      default, else all the others. */
  ghost predicate Wins(candidates: map<string, Schema>, k: string) {
    && k in candidates
    && if IsSuccess(k) then
         forall other :: other in candidates && IsSuccess(other) ==> Atoi(k).value <= Atoi(other).value
       else
         && (forall other :: other in candidates ==> !IsSuccess(other))
         && (k == DEFAULT || DEFAULT !in candidates)
  }

  /** The last visited 2xx candidate with this code, if any. */
  ghost predicate LastWithCode(candidates: map<string, Schema>, visited: seq<string>, code: int, i: int) {
    && 0 <= i < |visited| && visited[i] in candidates && IsSuccess(visited[i]) && Atoi(visited[i]) == Some(code)
    && forall j :: i < j < |visited| && visited[j] in candidates && IsSuccess(visited[j]) ==>
         Atoi(visited[j]) != Some(code)
  }

  /** The first visited candidate that is neither 2xx nor the default, if any. */
  ghost predicate FirstOther(candidates: map<string, Schema>, visited: seq<string>, i: int) {
    && 0 <= i < |visited| && visited[i] in candidates && IsOther(visited[i])
    && forall j :: 0 <= j < i && visited[j] in candidates ==> !IsOther(visited[j])
  }

  lemma {:induction false} DefaultScanned(candidates: map<string, Schema>, visited: seq<string>)
    ensures Scanned(candidates, visited).defaultSchema ==
      if DEFAULT in visited && DEFAULT in candidates then Some(candidates[DEFAULT]) else None
  {
    if visited != [] {
      DefaultScanned(candidates, visited[..|visited| - 1]);
      assert visited == visited[..|visited| - 1] + [visited[|visited| - 1]];
    }
  }

  /** Code by code, the schema kept is that of the last status visited. */
  lemma {:induction false} CodeScanned(candidates: map<string, Schema>, visited: seq<string>, code: int)
    requires code in Scanned(candidates, visited).codes
    ensures var scan := Scanned(candidates, visited);
      && code in scan.schemas
      && exists i :: LastWithCode(candidates, visited, code, i) && scan.schemas[code] == candidates[visited[i]]
  {
    var k := |visited| - 1;
    if visited[k] in candidates && IsSuccess(visited[k]) && Atoi(visited[k]) == Some(code) {
      assert LastWithCode(candidates, visited, code, k);
    } else {
      CodeScanned(candidates, visited[..k], code);
      var before := Scanned(candidates, visited[..k]);
      var i :| LastWithCode(candidates, visited[..k], code, i) && before.schemas[code] == candidates[visited[..k][i]];
      assert LastWithCode(candidates, visited, code, i);
    }
  }

  lemma {:induction false} SuccessScanned(candidates: map<string, Schema>, visited: seq<string>, i: nat)
    requires i < |visited| && visited[i] in candidates && IsSuccess(visited[i])
    ensures Atoi(visited[i]).value in Scanned(candidates, visited).codes
  {
    if i < |visited| - 1 {
      SuccessScanned(candidates, visited[..|visited| - 1], i);
    }
  }

  /** Of the remaining statuses the first one visited is kept. */
  lemma {:induction false} OtherScanned(candidates: map<string, Schema>, visited: seq<string>)
    ensures var any := Scanned(candidates, visited).anySchema;
      && (any.Some? ==> exists i :: FirstOther(candidates, visited, i) && any.value == candidates[visited[i]])
      && (any.None? ==> forall i :: 0 <= i < |visited| && visited[i] in candidates ==> !IsOther(visited[i]))
  {
    if visited != [] {
      var k := |visited| - 1;
      OtherScanned(candidates, visited[..k]);
      var before := Scanned(candidates, visited[..k]).anySchema;
      if before.Some? {
        var i :| FirstOther(candidates, visited[..k], i) && before.value == candidates[visited[..k][i]];
        assert FirstOther(candidates, visited, i);
      } else if visited[k] in candidates && IsOther(visited[k]) {
        assert FirstOther(candidates, visited, k);
      }
    }
  }

  lemma NoCodeScanned(candidates: map<string, Schema>, visited: seq<string>)
    requires Scanned(candidates, visited).codes == []
    ensures forall k :: k in visited && k in candidates ==> !IsSuccess(k)
  {
    forall k | k in visited && k in candidates ensures !IsSuccess(k) {
      var i :| 0 <= i < |visited| && visited[i] == k;
      if IsSuccess(k) {
        SuccessScanned(candidates, visited, i);
        assert false;
      }
    }
  }

  /** Whatever the order, a winner is chosen, and nothing only if there is
      nothing to choose. */
  lemma AWinnerIsChosen(candidates: map<string, Schema>, visited: seq<string>, keys: set<string>)
    requires Lists(visited, keys) && candidates.Keys <= keys
    ensures candidates == map[] ==> Choice(candidates, visited) == None
    ensures candidates != map[] ==>
      exists k :: Wins(candidates, k) && Choice(candidates, visited) == Some(candidates[k])
  {
    var scan := Scanned(candidates, visited);
    assert forall k :: k in candidates ==> k in keys;
    ScannedCodes(candidates, visited);
    if scan.codes != [] {
      var least := Least(scan.codes);
      CodeScanned(candidates, visited, least);
      var i :| LastWithCode(candidates, visited, least, i) && scan.schemas[least] == candidates[visited[i]];
      forall k | k in candidates && IsSuccess(k) ensures least <= Atoi(k).value {
        var j :| 0 <= j < |visited| && visited[j] == k;
        SuccessScanned(candidates, visited, j);
      }
      assert Wins(candidates, visited[i]);
    } else {
      NoCodeScanned(candidates, visited);
      DefaultScanned(candidates, visited);
      OtherScanned(candidates, visited);
      if scan.defaultSchema.Some? {
        assert Wins(candidates, DEFAULT);
      } else if scan.anySchema.Some? {
        var i :| FirstOther(candidates, visited, i) && scan.anySchema.value == candidates[visited[i]];
        assert Wins(candidates, visited[i]);
      } else {
        assert forall k :: k in visited ==> k !in candidates;
        assert candidates.Keys == {};
      }
    }
  }

  /** A winning 2xx key is chosen if it comes last, any other winner if first. */
  lemma LastSuccessWins(candidates: map<string, Schema>, rest: seq<string>, k: string)
    requires Wins(candidates, k) && IsSuccess(k)
    ensures Choice(candidates, rest + [k]) == Some(candidates[k])
  {
    var visited := rest + [k];
    assert visited[|rest|] == k;
    var scan, code := Scanned(candidates, visited), Atoi(k).value;
    SuccessScanned(candidates, visited, |rest|);
    ScannedCodes(candidates, visited);
    var least := Least(scan.codes);
    CodeScanned(candidates, visited, least);
    var i :| LastWithCode(candidates, visited, least, i) && scan.schemas[least] == candidates[visited[i]];
    assert least == code;
    assert i == |rest|;
  }

  lemma FirstNonSuccessWins(candidates: map<string, Schema>, rest: seq<string>, k: string)
    requires Wins(candidates, k) && !IsSuccess(k)
    ensures Choice(candidates, [k] + rest) == Some(candidates[k])
  {
    var visited := [k] + rest;
    assert visited[0] == k;
    var scan := Scanned(candidates, visited);
    ScannedCodes(candidates, visited);
    if scan.codes != [] {
      var least := Least(scan.codes);
      CodeScanned(candidates, visited, least);
      assert false;
    }
    DefaultScanned(candidates, visited);
    OtherScanned(candidates, visited);
    if k != DEFAULT {
      var i :| FirstOther(candidates, visited, i) && scan.anySchema.value == candidates[visited[i]];
      assert i == 0;
    }
  }

  /** Every winner is chosen by some order. */
  lemma AnyWinnerCanBeChosen(candidates: map<string, Schema>, keys: set<string>, k: string)
    requires candidates.Keys <= keys && Wins(candidates, k)
    ensures exists visited :: Lists(visited, keys) && Choice(candidates, visited) == Some(candidates[k])
  {
    var rest := SomeListing(keys - {k});
    assert keys - {k} + {k} == keys;
    if IsSuccess(k) {
      ListingSnoc(rest, keys - {k}, k);
      LastSuccessWins(candidates, rest, k);
    } else {
      ListingCons(k, rest, keys - {k});
      FirstNonSuccessWins(candidates, rest, k);
    }
  }

  ghost predicate OrderIndependent(candidates: map<string, Schema>, keys: set<string>) {
    forall v, v' :: Lists(v, keys) && Lists(v', keys) ==> Choice(candidates, v) == Choice(candidates, v')
  }

  /** The choice does not depend on the order exactly when all winners have the
      same schema. */
  lemma IndependentExactlyIfWinnersAgree(candidates: map<string, Schema>, keys: set<string>)
    requires candidates.Keys <= keys
    ensures OrderIndependent(candidates, keys) <==>
      forall k, k' :: Wins(candidates, k) && Wins(candidates, k') ==> candidates[k] == candidates[k']
  {
    if OrderIndependent(candidates, keys) {
      forall k, k' | Wins(candidates, k) && Wins(candidates, k') ensures candidates[k] == candidates[k'] {
        AnyWinnerCanBeChosen(candidates, keys, k);
        AnyWinnerCanBeChosen(candidates, keys, k');
      }
    } else {
      var v, v' :| Lists(v, keys) && Lists(v', keys) && Choice(candidates, v) != Choice(candidates, v');
      AWinnerIsChosen(candidates, v, keys);
      AWinnerIsChosen(candidates, v', keys);
    }
  }

  /** Status keys written without sign or leading zeros. */
  ghost predicate Canonical(candidates: map<string, Schema>) {
    forall k :: k in candidates && IsSuccess(k) ==> k == Itoa(Atoi(k).value)
  }

  ghost predicate HasSuccessOrDefault(candidates: map<string, Schema>) {
    exists k :: k in candidates && !IsOther(k)
  }

  lemma CanonicalWinnerIsUnique(candidates: map<string, Schema>, k: string, k': string)
    requires Canonical(candidates) && Wins(candidates, k) && Wins(candidates, k')
    requires HasSuccessOrDefault(candidates)
    ensures k == k' && !IsOther(k)
  {
    if IsSuccess(k) {
      var code, code' := Atoi(k).value, Atoi(k').value;
      assert code == code';
      assert k == Itoa(code) && k' == Itoa(code');
    }
  }

  /** With canonical keys and some 2xx or default schema there is one winner, the
      smallest 2xx or else the default. So the result is fixed. */
  lemma CanonicalKeysFixTheChoice(candidates: map<string, Schema>, keys: set<string>)
    requires candidates.Keys <= keys && Canonical(candidates) && HasSuccessOrDefault(candidates)
    ensures OrderIndependent(candidates, keys)
  {
    forall k, k' | Wins(candidates, k) && Wins(candidates, k') ensures candidates[k] == candidates[k'] {
      CanonicalWinnerIsUnique(candidates, k, k');
    }
    IndependentExactlyIfWinnersAgree(candidates, keys);
  }

  lemma TwoSpellings()
    ensures Atoi("200") == Atoi("+200") == Some(200) && "200" != "+200"
    ensures IsSuccess("200") && IsSuccess("+200")
  {
    AtoiReadsDecimal(200);
    assert Decimal(200) == "200" by {
      assert Decimal(2) == "2" && Decimal(20) == "20";
    }
    assert "+200"[1..] == "200";
    assert |DEFAULT| == 7;
  }

  /** "200" and "+200" name the same code: which of their schemas is kept
      depends on the order. */
  lemma SpellingsOfOneCodeClash(a: Schema, b: Schema)
    requires a != b
    ensures !OrderIndependent(map["200" := a, "+200" := b], {"200", "+200"})
  {
    var candidates := map["200" := a, "+200" := b];
    TwoSpellings();
    assert Wins(candidates, "200") && Wins(candidates, "+200");
    IndependentExactlyIfWinnersAgree(candidates, {"200", "+200"});
  }

  ghost predicate HasJson(content: Content, mediaType: string) {
    mediaType in content && "application/json" <= mediaType && content[mediaType].Some?
  }

  ghost predicate OneJsonMediaType(content: Content) {
    forall t, t' :: HasJson(content, t) && HasJson(content, t') ==> t == t'
  }

  /** The content of a response with at most one JSON media type that has a
      schema entry reads the same in every order. */
  lemma {:induction false} OneJsonMediaTypeIsEnough(content: Content, v: seq<string>, k: string)
    requires forall t :: t in v ==> t in content
    requires forall t :: HasJson(content, t) ==> t == k
    ensures JSONSchemaInResponse(content, v) == if k in v && HasJson(content, k) then content[k].value else None
  {
    if v != [] {
      OneJsonMediaTypeIsEnough(content, v[1..], k);
      assert v == [v[0]] + v[1..];
      assert HasJson(content, v[0]) ==> v[0] == k;
    }
  }

  /** So the candidates, too, do not depend on the order. */
  lemma CandidatesAreFixed(responses: Responses, o: MediaOrders, o': MediaOrders)
    requires forall s :: s in responses && responses[s].Some? ==> OneJsonMediaType(responses[s].value)
    ensures Candidates(responses, o) == Candidates(responses, o')
  {
    forall s | s in responses && responses[s].Some?
      ensures JSONSchemaInResponse(responses[s].value, o(s)(responses[s].value.Keys))
           == JSONSchemaInResponse(responses[s].value, o'(s)(responses[s].value.Keys))
    {
      var content := responses[s].value;
      var k := if exists t :: HasJson(content, t) then var t :| HasJson(content, t); t else "";
      OneJsonMediaTypeIsEnough(content, o(s)(content.Keys), k);
      OneJsonMediaTypeIsEnough(content, o'(s)(content.Keys), k);
    }
  }

  // ------------------------------------- every choice the orders can make

  /** What a response may be read as: the schema of any of its JSON media types,
      and no schema only if it has none, or one whose schema does not resolve. */
  ghost predicate MayRead(responses: Responses, status: string, r: Option<Schema>)
    requires status in responses
  {
    match responses[status]
    case None => r == None
    case Some(content) =>
      || (exists t :: HasJson(content, t) && content[t].value == r)
      || (r == None && forall t :: !HasJson(content, t))
  }

  /** This response, read as this schema, may win over the others. */
  ghost predicate MayWin(responses: Responses, k: string, schema: Schema) {
    && k in responses && MayRead(responses, k, Some(schema))
    && forall other :: other in responses && Beats(other, k) ==> MayRead(responses, other, None)
  }

  /** If both have a JSON schema, `k` is not chosen. */
  predicate Beats(other: string, k: string) {
    if IsSuccess(other) then IsSuccess(k) ==> Atoi(other).value < Atoi(k).value
    else other == DEFAULT && IsOther(k)
  }

  /** The choices some order makes, said without orders. */
  ghost predicate Possible(responses: Responses, r: Option<Schema>) {
    match r
    case None => forall k :: k in responses ==> MayRead(responses, k, None)
    case Some(schema) => exists k :: MayWin(responses, k, schema)
  }

  lemma {:induction false} FirstReading(content: Content, v: seq<string>)
    requires forall t :: t in v ==> t in content
    ensures var r := JSONSchemaInResponse(content, v);
      || (exists t :: HasJson(content, t) && content[t].value == r)
      || (r == None && forall t :: t in v ==> !HasJson(content, t))
  {
    if v != [] {
      assert v == [v[0]] + v[1..];
      if JSON_PREFIX <= v[0] && content[v[0]].Some? {
        assert HasJson(content, v[0]);
      } else {
        FirstReading(content, v[1..]);
      }
    }
  }

  /** What the candidates say of a response it may be read as. */
  lemma CandidateIsRead(responses: Responses, mediaTypes: MediaOrders, k: string)
    requires k in responses
    ensures var candidates := Candidates(responses, mediaTypes);
      MayRead(responses, k, if k in candidates then Some(candidates[k]) else None)
  {
    if responses[k].Some? {
      var content := responses[k].value;
      var v := mediaTypes(k)(content.Keys);
      assert forall t :: t in v <==> t in content.Keys;
      FirstReading(content, v);
    }
  }

  lemma WinnerMayWin(responses: Responses, mediaTypes: MediaOrders, k: string)
    requires Wins(Candidates(responses, mediaTypes), k)
    ensures MayWin(responses, k, Candidates(responses, mediaTypes)[k])
  {
    var candidates := Candidates(responses, mediaTypes);
    CandidateIsRead(responses, mediaTypes, k);
    forall other | other in responses && Beats(other, k) ensures MayRead(responses, other, None) {
      CandidateIsRead(responses, mediaTypes, other);
      assert other !in candidates;
    }
  }

  lemma ChosenIsPossible(responses: Responses, statuses: Order, mediaTypes: MediaOrders)
    ensures Possible(responses, Chosen(responses, statuses, mediaTypes))
  {
    var candidates := Candidates(responses, mediaTypes);
    AWinnerIsChosen(candidates, statuses(responses.Keys), responses.Keys);
    if candidates == map[] {
      forall k | k in responses ensures MayRead(responses, k, None) {
        CandidateIsRead(responses, mediaTypes, k);
      }
    } else {
      var k :| Wins(candidates, k) && Choice(candidates, statuses(responses.Keys)) == Some(candidates[k]);
      WinnerMayWin(responses, mediaTypes, k);
    }
  }

  /** An order of the media types by which a response is read as `r`, if it may
      be. */
  ghost function Reading(responses: Responses, status: string, r: Option<Schema>): Order {
    if status in responses && responses[status].Some?
       && exists t :: HasJson(responses[status].value, t) && responses[status].value[t].value == r then
      var t :| HasJson(responses[status].value, t) && responses[status].value[t].value == r;
      FirstOrder(responses[status].value.Keys, t)
    else SomeOrder()
  }

  lemma ReadingReads(responses: Responses, status: string, r: Option<Schema>)
    requires status in responses && responses[status].Some? && MayRead(responses, status, r)
    ensures JSONSchemaInResponse(responses[status].value, Reading(responses, status, r)(responses[status].value.Keys)) == r
  {
    var content := responses[status].value;
    if exists t :: HasJson(content, t) && content[t].value == r {
      var t :| HasJson(content, t) && content[t].value == r && Reading(responses, status, r) == FirstOrder(content.Keys, t);
      assert t in content.Keys;
      assert t in FirstOrder(content.Keys, t)(content.Keys);
    } else {
      FirstReading(content, Reading(responses, status, r)(content.Keys));
    }
  }

  /** Reads `k` as `schema`, and no other response as anything if that may be. */
  ghost function Readings(responses: Responses, k: string, schema: Schema): MediaOrders {
    status => Reading(responses, status, if status == k then Some(schema) else None)
  }

  lemma CandidateAt(responses: Responses, mediaTypes: MediaOrders, k: string, r: Option<Schema>)
    requires k in responses && MayRead(responses, k, r) && mediaTypes(k) == Reading(responses, k, r)
    ensures var candidates := Candidates(responses, mediaTypes);
      Candidates(responses, mediaTypes).Keys <= responses.Keys
      && (if k in candidates then Some(candidates[k]) else None) == r
  {
    if responses[k].Some? {
      ReadingReads(responses, k, r);
    }
  }

  lemma ReadingsLetWin(responses: Responses, k: string, schema: Schema)
    requires MayWin(responses, k, schema)
    ensures var candidates := Candidates(responses, Readings(responses, k, schema));
      Wins(candidates, k) && candidates[k] == schema
  {
    var mediaTypes := Readings(responses, k, schema);
    CandidateAt(responses, mediaTypes, k, Some(schema));
    forall other | other in responses && Beats(other, k) ensures other !in Candidates(responses, mediaTypes) {
      CandidateAt(responses, mediaTypes, other, None);
    }
    UnbeatenWins(Candidates(responses, mediaTypes), k);
  }

  lemma UnbeatenWins(candidates: map<string, Schema>, k: string)
    requires k in candidates && forall other :: other in candidates ==> !Beats(other, k)
    ensures Wins(candidates, k)
  {
  }

  /** Over all orders of statuses and of media types, the choices made are exactly
      the possible ones. */
  lemma ChoicesAreThePossible(responses: Responses, r: Option<Schema>)
    ensures (exists statuses: Order, mediaTypes: MediaOrders :: Chosen(responses, statuses, mediaTypes) == r)
       <==> Possible(responses, r)
  {
    if exists statuses: Order, mediaTypes: MediaOrders :: Chosen(responses, statuses, mediaTypes) == r {
      var statuses: Order, mediaTypes: MediaOrders :| Chosen(responses, statuses, mediaTypes) == r;
      ChosenIsPossible(responses, statuses, mediaTypes);
    }
    if Possible(responses, r) {
      var statuses, mediaTypes := OrdersFor(responses, r);
    }
  }

  lemma OrdersFor(responses: Responses, r: Option<Schema>) returns (statuses: Order, mediaTypes: MediaOrders)
    requires Possible(responses, r)
    ensures Chosen(responses, statuses, mediaTypes) == r
  {
    match r {
      case None =>
        statuses, mediaTypes := SomeOrder(), status => Reading(responses, status, None);
        forall k | k in responses ensures k !in Candidates(responses, mediaTypes) {
          CandidateAt(responses, mediaTypes, k, None);
        }
        assert Candidates(responses, mediaTypes) == map[];
        AWinnerIsChosen(map[], statuses(responses.Keys), responses.Keys);
      case Some(schema) =>
        var k :| MayWin(responses, k, schema);
        mediaTypes := Readings(responses, k, schema);
        ReadingsLetWin(responses, k, schema);
        AnyWinnerCanBeChosen(Candidates(responses, mediaTypes), responses.Keys, k);
        var visited :| Lists(visited, responses.Keys)
          && Choice(Candidates(responses, mediaTypes), visited) == Some(Candidates(responses, mediaTypes)[k]);
        statuses := OrderWith(visited, responses.Keys);
    }
  }

  ghost predicate SameChoice(responses: Responses, o: Order, m: MediaOrders, o': Order, m': MediaOrders) {
    Chosen(responses, o, m) == Chosen(responses, o', m')
  }

  ghost predicate ChoiceIsFixed(responses: Responses) {
    forall o: Order, m: MediaOrders, o': Order, m': MediaOrders :: SameChoice(responses, o, m, o', m')
  }

  /** So the choice is the same for every order exactly if only one is possible. */
  lemma ChoiceIsFixedExactlyIf(responses: Responses)
    ensures ChoiceIsFixed(responses) <==>
      forall r, r' :: Possible(responses, r) && Possible(responses, r') ==> r == r'
  {
    if ChoiceIsFixed(responses) {
      forall r, r' | Possible(responses, r) && Possible(responses, r') ensures r == r' {
        var o, m := OrdersFor(responses, r);
        var o', m' := OrdersFor(responses, r');
        assert SameChoice(responses, o, m, o', m');
      }
    } else {
      var o: Order, m: MediaOrders, o': Order, m': MediaOrders :| !SameChoice(responses, o, m, o', m');
      ChosenIsPossible(responses, o, m);
      ChosenIsPossible(responses, o', m');
    }
  }

  // ------------------------------------------------------ the promised choice

  /** The JSON schema of a response with one JSON media type. */
  ghost predicate HasSchema(responses: Responses, status: string, schema: Schema) {
    && status in responses && responses[status].Some?
    && exists t :: HasJson(responses[status].value, t) && responses[status].value[t].value == Some(schema)
  }

  ghost predicate OneJsonMediaTypeEach(responses: Responses) {
    forall k :: k in responses && responses[k].Some? ==> OneJsonMediaType(responses[k].value)
  }

  /** `k` is the smallest 2xx status with a JSON schema, or the default if no 2xx
      status has one. */
  ghost predicate IsPreferred(responses: Responses, k: string, schema: Schema) {
    && HasSchema(responses, k, schema)
    && !IsOther(k)
    && forall other, schema' :: HasSchema(responses, other, schema') && IsSuccess(other) ==>
         IsSuccess(k) && Atoi(k).value <= Atoi(other).value
  }

  ghost predicate CanonicalStatuses(responses: Responses) {
    forall k :: k in responses && IsSuccess(k) ==> k == Itoa(Atoi(k).value)
  }

  /** With one JSON media type per response and canonical status keys, every order
      chooses the schema of the smallest 2xx status, or else of the default,
      whenever one of these has a JSON schema. */
  lemma PreferredIsChosen(responses: Responses, k: string, schema: Schema, statuses: Order, mediaTypes: MediaOrders)
    requires OneJsonMediaTypeEach(responses) && CanonicalStatuses(responses)
    requires IsPreferred(responses, k, schema)
    ensures Chosen(responses, statuses, mediaTypes) == Some(schema)
  {
    ChosenIsPossible(responses, statuses, mediaTypes);
    OnlyReading(responses, k, schema, None);
    var chosen := Chosen(responses, statuses, mediaTypes);
    var k' :| MayWin(responses, k', chosen.value);
    MayReadHasSchema(responses, k', chosen.value);
    if Beats(k, k') {
      assert false;
    }
    assert k' == k by {
      if IsSuccess(k) {
        assert IsSuccess(k') && Atoi(k').value == Atoi(k).value;
        assert k == Itoa(Atoi(k).value);
      }
    }
    OnlyReading(responses, k, schema, chosen);
  }

  /** And there is such a schema whenever some 2xx status or the default has one. */
  lemma PreferredExists(responses: Responses, p: string, schema: Schema)
    requires OneJsonMediaTypeEach(responses) && CanonicalStatuses(responses)
    requires HasSchema(responses, p, schema) && !IsOther(p)
    ensures exists k, chosen :: IsPreferred(responses, k, chosen)
  {
    var statuses, mediaTypes: MediaOrders := SomeOrder(), status => SomeOrder();
    ChosenIsPossible(responses, statuses, mediaTypes);
    OnlyReading(responses, p, schema, None);
    var chosen := Chosen(responses, statuses, mediaTypes).value;
    var k :| MayWin(responses, k, chosen);
    MayReadHasSchema(responses, k, chosen);
    forall other, schema' | HasSchema(responses, other, schema') && IsSuccess(other)
      ensures IsSuccess(k) && Atoi(k).value <= Atoi(other).value
    {
      OnlyReading(responses, other, schema', None);
      assert !Beats(other, k);
    }
    assert !Beats(p, k);
    assert IsPreferred(responses, k, chosen);
  }

  lemma MayReadHasSchema(responses: Responses, k: string, schema: Schema)
    requires k in responses && MayRead(responses, k, Some(schema))
    ensures HasSchema(responses, k, schema)
  {
  }

  lemma OnlyReading(responses: Responses, k: string, schema: Schema, r: Option<Schema>)
    requires OneJsonMediaTypeEach(responses) && HasSchema(responses, k, schema)
    ensures MayRead(responses, k, r) <==> r == Some(schema)
  {
    var content := responses[k].value;
    var t :| HasJson(content, t) && content[t].value == Some(schema);
    assert OneJsonMediaType(content);
    forall t' | HasJson(content, t') ensures t' == t {
    }
  }

  lemma BothSpellingsMayWin(responses: Responses, mediaType: string, a: Schema, b: Schema)
    requires JSON_PREFIX <= mediaType
    requires responses == map["200" := Some(map[mediaType := Some(Some(a))]), "+200" := Some(map[mediaType := Some(Some(b))])]
    ensures Possible(responses, Some(a)) && Possible(responses, Some(b))
  {
    TwoSpellings();
    assert HasJson(responses["200"].value, mediaType) && HasJson(responses["+200"].value, mediaType);
    assert MayWin(responses, "200", a);
    assert MayWin(responses, "+200", b);
  }

  // -------------------------------------------------- by the status numbers

  /** A response under a key that reads as this number has a JSON schema. */
  ghost predicate HasNumbered(responses: Responses, n: int, schema: Schema) {
    exists k :: Atoi(k) == Some(n) && HasSchema(responses, k, schema)
  }

  /** Each 2xx status is written in one way only. */
  ghost predicate OneSpelling(responses: Responses) {
    forall k, k', n :: k in responses && k' in responses && 200 <= n <= 299 && Atoi(k) == Some(n) && Atoi(k') == Some(n) ==> k == k'
  }

  ghost predicate HasSuccess(responses: Responses) {
    exists n, schema :: 200 <= n <= 299 && HasNumbered(responses, n, schema)
  }

  lemma DefaultIsNoNumber()
    ensures Atoi("default") == None
  {
    assert "default"[0] == 'd';
    assert "default"[0] in "default";
  }

  lemma SuccessIsNumbered(k: string)
    ensures IsSuccess(k) <==> exists n :: Atoi(k) == Some(n) && 200 <= n <= 299
  {
    DefaultIsNoNumber();
  }

  /** With a schema there is a choice, and it is of a response that `p` does not
      beat. */
  lemma ChosenIsUnbeaten(responses: Responses, p: string, schema: Schema, statuses: Order, mediaTypes: MediaOrders)
    returns (k: string, chosen: Schema)
    requires OneJsonMediaTypeEach(responses) && HasSchema(responses, p, schema)
    ensures Chosen(responses, statuses, mediaTypes) == Some(chosen)
    ensures HasSchema(responses, k, chosen) && !Beats(p, k)
  {
    ChosenIsPossible(responses, statuses, mediaTypes);
    OnlyReading(responses, p, schema, None);
    chosen := Chosen(responses, statuses, mediaTypes).value;
    k :| MayWin(responses, k, chosen);
    MayReadHasSchema(responses, k, chosen);
  }

  lemma OneSchemaEach(responses: Responses, k: string, schema: Schema, other: Schema)
    requires OneJsonMediaTypeEach(responses) && HasSchema(responses, k, schema) && HasSchema(responses, k, other)
    ensures schema == other
  {
    OnlyReading(responses, k, schema, Some(other));
  }

  /** A 2xx status that only larger ones compete with is chosen, in every order. */
  lemma SmallestSuccessIsChosen(responses: Responses, n: int, schema: Schema, statuses: Order, mediaTypes: MediaOrders)
    requires OneJsonMediaTypeEach(responses) && OneSpelling(responses)
    requires 200 <= n <= 299 && HasNumbered(responses, n, schema)
    requires forall m, other :: 200 <= m < n ==> !HasNumbered(responses, m, other)
    ensures Chosen(responses, statuses, mediaTypes) == Some(schema)
  {
    var p :| Atoi(p) == Some(n) && HasSchema(responses, p, schema);
    SuccessIsNumbered(p);
    var k, chosen := ChosenIsUnbeaten(responses, p, schema, statuses, mediaTypes);
    SuccessIsNumbered(k);
    assert IsSuccess(k) && Atoi(k).value <= n;
    assert HasNumbered(responses, Atoi(k).value, chosen);
    OneSchemaEach(responses, p, schema, chosen);
  }

  /** Without a 2xx schema the default's is chosen. */
  lemma DefaultIsChosen(responses: Responses, schema: Schema, statuses: Order, mediaTypes: MediaOrders)
    requires OneJsonMediaTypeEach(responses) && !HasSuccess(responses) && HasSchema(responses, "default", schema)
    ensures Chosen(responses, statuses, mediaTypes) == Some(schema)
  {
    DefaultIsNoNumber();
    var k, chosen := ChosenIsUnbeaten(responses, "default", schema, statuses, mediaTypes);
    SuccessIsNumbered(k);
    if IsSuccess(k) {
      assert HasNumbered(responses, Atoi(k).value, chosen);
      assert false;
    }
    OneSchemaEach(responses, "default", schema, chosen);
  }

  /** Without either it is the schema of some response, if any has one. */
  lemma OtherIsChosen(responses: Responses, statuses: Order, mediaTypes: MediaOrders)
    requires OneJsonMediaTypeEach(responses)
    ensures match Chosen(responses, statuses, mediaTypes)
      case None => forall k, schema :: !HasSchema(responses, k, schema)
      case Some(chosen) => exists k :: HasSchema(responses, k, chosen)
  {
    ChosenIsPossible(responses, statuses, mediaTypes);
    match Chosen(responses, statuses, mediaTypes) {
      case None =>
        forall k, schema ensures !HasSchema(responses, k, schema) {
          if HasSchema(responses, k, schema) {
            OnlyReading(responses, k, schema, None);
            assert false;
          }
        }
      case Some(chosen) =>
        var k :| MayWin(responses, k, chosen);
        MayReadHasSchema(responses, k, chosen);
    }
  }
}

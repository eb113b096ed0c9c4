/** From the arguments of a tool call to the REST request: endpoint_request.go. */
module EndpointRequests {
  import opened Common
  import opened Text
  import opened Rpc
  import opened Registry
  import P = Placeholders

  const IN_PATH := "path"
  const IN_QUERY := "query"
  const IN_HEADER := "header"

  datatype Reason = RequiredButMissing | MustBeScalar | ElementsMustBeScalars | MustBeScalarOrArray

  datatype ParamError = ParamError(location: string, name: string, reason: Reason)

  datatype Outcome<+T> = Done(value: T) | Failed(error: ParamError)

  type Arguments = map<string, Json>
  type Format = real -> string

  /** How a JSON number is printed is the library's business. */
  function JsonScalarToString(format: Format, value: Json): Option<string> {
    match value
    case Text(s) => Some(s)
    case Number(n) => Some(format(n))
    case Boolean(b) => Some(if b then "true" else "false")
    case _ => None
  }

  function Scalars(format: Format, elements: seq<Json>): Option<seq<string>> {
    if elements == [] then Some([])
    else
      match JsonScalarToString(format, elements[0])
      case None => None
      case Some(first) =>
        match Scalars(format, elements[1..])
        case None => None
        case Some(rest) => Some([first] + rest)
  }

  function QueryParamValues(format: Format, value: Json): Option<seq<string>> {
    if value.Array? then Scalars(format, value.elements)
    else
      match JsonScalarToString(format, value)
      case None => None
      case Some(s) => Some([s])
  }

  /** The fields of the source's endpointRequest. */
  datatype Draft = Draft(path: string, query: map<string, seq<string>>, headers: map<string, string>)

  function BaseHeaders(endpoint: Endpoint): map<string, string> {
    map["accept" := "*/*"] + (if endpoint.contentType != "" then map["content-type" := endpoint.contentType] else map[])
  }

  function Begin(endpoint: Endpoint): Draft {
    Draft(endpoint.pathTemplate, map[], BaseHeaders(endpoint))
  }

  /** url.Values.Add, once per value. */
  function AddQuery(query: map<string, seq<string>>, name: string, values: seq<string>): map<string, seq<string>> {
    if values == [] then query
    else query[name := (if name in query then query[name] else []) + values]
  }

  lemma AddQuerySnoc(query: map<string, seq<string>>, name: string, init: seq<string>, last: string)
    ensures var before := AddQuery(query, name, init);
      AddQuery(query, name, init + [last]) == before[name := (if name in before then before[name] else []) + [last]]
  {
    var earlier := if name in query then query[name] else [];
    assert earlier + [] == earlier;
    assert (earlier + init) + [last] == earlier + (init + [last]);
  }

  function Applied(format: Format, d: Draft, location: string, name: string, value: Json): Outcome<Draft> {
    if location == IN_PATH then
      match JsonScalarToString(format, value)
      case None => Failed(ParamError(location, name, MustBeScalar))
      case Some(s) => Done(d.(path := ReplaceAll(d.path, P.Placeholder(name), s)))
    else if location == IN_QUERY then
      match QueryParamValues(format, value)
      case None => Failed(ParamError(location, name, if value.Array? then ElementsMustBeScalars else MustBeScalarOrArray))
      case Some(values) => Done(d.(query := AddQuery(d.query, name, values)))
    else if location == IN_HEADER then
      match JsonScalarToString(format, value)
      case None => Failed(ParamError(location, name, MustBeScalar))
      case Some(s) => Done(d.(headers := d.headers[name := s]))
    else Done(d)
  }

  /** One turn of the loop over the endpoint's parameters. */
  function Turn(format: Format, endpoint: Endpoint, arguments: Arguments, d: Draft, name: string): Outcome<Draft>
    requires name in endpoint.parameters
  {
    match endpoint.parameters[name]
    case Unreadable => Done(d)
    case Parameter(location, required) =>
      if name !in arguments then
        if required then Failed(ParamError(location, name, RequiredButMissing)) else Done(d)
      else Applied(format, d, location, name, arguments[name])
  }

  /** The loop, over the parameters in the order visited. */
  function Built(format: Format, endpoint: Endpoint, arguments: Arguments, visited: seq<string>): Outcome<Draft>
    requires forall n :: n in visited ==> n in endpoint.parameters
  {
    if visited == [] then Done(Begin(endpoint))
    else
      var last := |visited| - 1;
      match Built(format, endpoint, arguments, visited[..last])
      case Failed(e) => Failed(e)
      case Done(d) => Turn(format, endpoint, arguments, d, visited[last])
  }

  class EndpointRequest {
    var path: string
    var queryParams: map<string, seq<string>>
    var extraHeaders: map<string, string>

    function Value(): Draft
      reads this
    {
      Draft(path, queryParams, extraHeaders)
    }

    constructor (endpoint: Endpoint)
      ensures Value() == Begin(endpoint)
    {
      path := endpoint.pathTemplate;
      queryParams := map[];
      extraHeaders := map["accept" := "*/*"];
      new;
      if endpoint.contentType != "" {
        extraHeaders := extraHeaders["content-type" := endpoint.contentType];
      }
    }

    method ApplyEndpointArgument(format: Format, location: string, name: string, value: Json)
      returns (err: Option<ParamError>)
      modifies this
      ensures match Applied(format, old(Value()), location, name, value)
              case Done(d) => err.None? && Value() == d
              case Failed(e) => err == Some(e) && Value() == old(Value())
    {
      err := None;
      if location == IN_PATH {
        var s := JsonScalarToString(format, value);
        if s.None? {
          return Some(ParamError(location, name, MustBeScalar));
        }
        path := ReplaceAll(path, P.Placeholder(name), s.value);
      } else if location == IN_QUERY {
        var values := QueryParamValues(format, value);
        if values.None? {
          return Some(ParamError(location, name, if value.Array? then ElementsMustBeScalars else MustBeScalarOrArray));
        }
        for i := 0 to |values.value|
          invariant path == old(path) && extraHeaders == old(extraHeaders)
          invariant queryParams == AddQuery(old(queryParams), name, values.value[..i])
        {
          assert values.value[..i + 1] == values.value[..i] + [values.value[i]];
          AddQuerySnoc(old(queryParams), name, values.value[..i], values.value[i]);
          queryParams := queryParams[name := (if name in queryParams then queryParams[name] else []) + [values.value[i]]];
        }
        assert values.value[..|values.value|] == values.value;
      } else if location == IN_HEADER {
        var s := JsonScalarToString(format, value);
        if s.None? {
          return Some(ParamError(location, name, MustBeScalar));
        }
        extraHeaders := extraHeaders[name := s.value];
      }
    }
  }

  method NewEndpointRequest(format: Format, endpoint: Endpoint, arguments: Arguments, order: Order)
    returns (request: Option<EndpointRequest>, err: Option<ParamError>)
    ensures match Built(format, endpoint, arguments, order(endpoint.parameters.Keys))
            case Done(d) => err.None? && request.Some? && fresh(request.value) && request.value.Value() == d
            case Failed(e) => err == Some(e) && request.None?
  {
    var r := new EndpointRequest(endpoint);
    var visited := order(endpoint.parameters.Keys);
    for i := 0 to |visited|
      invariant fresh(r)
      invariant Built(format, endpoint, arguments, visited[..i]) == Done(r.Value())
    {
      var name := visited[i];
      assert name in visited;
      assert visited[..i + 1][..i] == visited[..i];
      BuiltStopsAtError(format, endpoint, arguments, visited, i + 1);
      if endpoint.parameters[name].Unreadable? {
        continue;
      }
      var location, required := endpoint.parameters[name].location, endpoint.parameters[name].required;
      if name !in arguments && required {
        return None, Some(ParamError(location, name, RequiredButMissing));
      }
      if name !in arguments {
        continue;
      }
      var failure := r.ApplyEndpointArgument(format, location, name, arguments[name]);
      if failure.Some? {
        return None, failure;
      }
    }
    assert visited[..|visited|] == visited;
    return Some(r), None;
  }

  lemma {:induction false} BuiltStopsAtError(format: Format, endpoint: Endpoint, arguments: Arguments, visited: seq<string>, k: nat)
    requires forall n :: n in visited ==> n in endpoint.parameters
    requires k <= |visited|
    ensures Built(format, endpoint, arguments, visited[..k]).Failed? ==>
      Built(format, endpoint, arguments, visited) == Built(format, endpoint, arguments, visited[..k])
  {
    if k == |visited| {
      assert visited[..k] == visited;
    } else {
      var last := |visited| - 1;
      assert visited[..last][..k] == visited[..k];
      BuiltStopsAtError(format, endpoint, arguments, visited[..last], k);
    }
  }

  function FullPath(encodeQuery: map<string, seq<string>> -> string, d: Draft): string {
    if |d.query| > 0 then d.path + "?" + encodeQuery(d.query) else d.path
  }

  /** The text up to the first question mark, and what follows it, if there is one. */
  function SplitAtQuestionMark(s: string): (string, Option<string>) {
    if s == "" then ("", None)
    else if s[0] == '?' then ("", Some(s[1..]))
    else
      var (path, query) := SplitAtQuestionMark(s[1..]);
      ([s[0]] + path, query)
  }

  lemma {:induction false} SplitFindsPath(path: string, rest: string)
    requires '?' !in path
    ensures SplitAtQuestionMark(path) == (path, None)
    ensures SplitAtQuestionMark(path + "?" + rest) == (path, Some(rest))
  {
    var whole := path + "?" + rest;
    if path == "" {
      assert whole[1..] == rest;
    } else {
      assert path[0] in path;
      SplitFindsPath(path[1..], rest);
      assert whole[1..] == path[1..] + "?" + rest;
      assert path == [path[0]] + path[1..];
    }
  }

  lemma {:induction false} SplitStopsBefore(s: string)
    ensures '?' !in SplitAtQuestionMark(s).0
  {
    if s != "" && s[0] != '?' {
      SplitStopsBefore(s[1..]);
    }
  }

  /** Path and query can be read back from the request target, which then has a
      query part exactly if there are query values: their encoding. It holds
      exactly if the path has no question mark. */
  lemma FullPathReadsBack(encodeQuery: map<string, seq<string>> -> string, d: Draft)
    ensures SplitAtQuestionMark(FullPath(encodeQuery, d)) ==
      (d.path, if d.query == map[] then None else Some(encodeQuery(d.query)))
      <==> '?' !in d.path
  {
    if '?' in d.path {
      SplitStopsBefore(FullPath(encodeQuery, d));
    } else {
      SplitFindsPath(d.path, encodeQuery(d.query));
    }
  }

  predicate SupportsBody(endpoint: Endpoint) {
    var verb := ToLower(endpoint.httpMethod);
    verb == "post" || verb == "put" || verb == "patch"
  }

  /** None is a marshalling error. */
  function MarshalRequestBody(marshal: Json -> Option<Bytes>, endpoint: Endpoint, arguments: Arguments): Option<Bytes> {
    if !SupportsBody(endpoint) then Some([])
    else if "body" !in arguments then Some([])
    else marshal(arguments["body"])
  }

  // ----------------------------------------------- independent of the order

  /** Why this parameter makes the request fail, whatever happens to the others. */
  function Fault(format: Format, endpoint: Endpoint, arguments: Arguments, name: string): Option<ParamError>
    requires name in endpoint.parameters
  {
    match endpoint.parameters[name]
    case Unreadable => None
    case Parameter(location, required) =>
      if name !in arguments then
        if required then Some(ParamError(location, name, RequiredButMissing)) else None
      else if location == IN_PATH || location == IN_HEADER then
        if arguments[name].Text? || arguments[name].Number? || arguments[name].Boolean? then None
        else Some(ParamError(location, name, MustBeScalar))
      else if location == IN_QUERY then
        if QueryParamValues(format, arguments[name]).Some? then None
        else Some(ParamError(location, name, if arguments[name].Array? then ElementsMustBeScalars else MustBeScalarOrArray))
      else None
  }

  /** The parameter is declared in this location. */
  predicate Declared(endpoint: Endpoint, name: string, location: string) {
    name in endpoint.parameters && endpoint.parameters[name].Parameter? && endpoint.parameters[name].location == location
  }

  /** And an argument is given for it. */
  predicate Given(endpoint: Endpoint, arguments: Arguments, location: string, name: string) {
    name in arguments && Declared(endpoint, name, location)
  }

  function ScalarText(format: Format, value: Json): string {
    match JsonScalarToString(format, value)
    case None => ""
    case Some(s) => s
  }

  /** The text of each path parameter that is given. */
  function PathValues(format: Format, endpoint: Endpoint, arguments: Arguments, names: set<string>): map<string, string> {
    map n | n in names && Given(endpoint, arguments, IN_PATH, n) :: ScalarText(format, arguments[n])
  }

  /** The header parameters that are given. */
  function HeaderValues(format: Format, endpoint: Endpoint, arguments: Arguments, names: set<string>): map<string, string> {
    map n | n in names && Given(endpoint, arguments, IN_HEADER, n) :: ScalarText(format, arguments[n])
  }

  function QueryTexts(format: Format, value: Json): seq<string> {
    match QueryParamValues(format, value)
    case None => []
    case Some(values) => values
  }

  /** The query parameters that are given, except empty arrays. */
  function QueryValues(format: Format, endpoint: Endpoint, arguments: Arguments, names: set<string>): map<string, seq<string>> {
    map n | n in names && Given(endpoint, arguments, IN_QUERY, n) && QueryTexts(format, arguments[n]) != []
      :: QueryTexts(format, arguments[n])
  }

  lemma TurnFailsOnFault(format: Format, endpoint: Endpoint, arguments: Arguments, d: Draft, name: string)
    requires name in endpoint.parameters
    ensures var turn := Turn(format, endpoint, arguments, d, name);
      match Fault(format, endpoint, arguments, name)
      case None => turn.Done?
      case Some(e) => turn == Failed(e)
  {
  }

  /** The request fails exactly if some visited parameter is faulty, and then with
      the fault of the first such parameter. */
  lemma {:induction false} FailsExactlyOnFault(format: Format, endpoint: Endpoint, arguments: Arguments, visited: seq<string>)
    requires forall n :: n in visited ==> n in endpoint.parameters
    ensures match Built(format, endpoint, arguments, visited)
      case Done(_) => forall n :: n in visited ==> Fault(format, endpoint, arguments, n).None?
      case Failed(e) => exists i :: 0 <= i < |visited| && Fault(format, endpoint, arguments, visited[i]) == Some(e)
                          && forall j :: 0 <= j < i ==> Fault(format, endpoint, arguments, visited[j]).None?
  {
    if visited != [] {
      var last := |visited| - 1;
      var init := visited[..last];
      FailsExactlyOnFault(format, endpoint, arguments, init);
      assert visited == init + [visited[last]];
      match Built(format, endpoint, arguments, init) {
        case Done(d) =>
          TurnFailsOnFault(format, endpoint, arguments, d, visited[last]);
          assert forall j :: 0 <= j < last ==> visited[j] in init;
        case Failed(e) =>
          var i :| 0 <= i < |init| && Fault(format, endpoint, arguments, init[i]) == Some(e)
            && forall j :: 0 <= j < i ==> Fault(format, endpoint, arguments, init[j]).None?;
          assert visited[i] == init[i] && forall j :: 0 <= j < i ==> visited[j] == init[j];
      }
    }
  }

  /** Path, query and headers of a request that could be built from distinct
      parameters: the path by one pass per path parameter in the order visited,
      query and headers by name. */
  lemma {:induction false} BuiltParts(format: Format, endpoint: Endpoint, arguments: Arguments, visited: seq<string>, names: set<string>)
    requires Lists(visited, names) && names <= endpoint.parameters.Keys
    requires Built(format, endpoint, arguments, visited).Done?
    ensures var d := Built(format, endpoint, arguments, visited).value;
      && d.query == QueryValues(format, endpoint, arguments, names)
      && d.headers == BaseHeaders(endpoint) + HeaderValues(format, endpoint, arguments, names)
      && d.path == P.ReplacedInOrder(endpoint.pathTemplate, visited, PathValues(format, endpoint, arguments, names))
    decreases |visited|
  {
    if visited == [] {
      assert names == {} by {
        assert forall n :: n in names ==> n in visited;
      }
    } else {
      var last := |visited| - 1;
      var init, name := visited[..last], visited[last];
      ListingInit(visited, names);
      BuiltParts(format, endpoint, arguments, init, names - {name});
      var d := Built(format, endpoint, arguments, init).value;
      assert visited == init + [name];
      assert name in visited;
      LastTurn(format, endpoint, arguments, d, init, name, names);
    }
  }

  lemma ListingInit(s: seq<string>, keys: set<string>)
    requires Lists(s, keys) && s != []
    ensures s[|s| - 1] in keys && Lists(s[..|s| - 1], keys - {s[|s| - 1]})
  {
    var last := |s| - 1;
    assert s == s[..last] + [s[last]];
    assert s[last] in s;
    assert forall i :: 0 <= i < last ==> s[..last][i] == s[i] && s[i] != s[last];
    forall k ensures k in s[..last] <==> k in keys - {s[last]} {
      assert k in s <==> k in s[..last] || k == s[last];
    }
  }

  lemma LastTurn(format: Format, endpoint: Endpoint, arguments: Arguments, d: Draft, init: seq<string>, name: string, names: set<string>)
    requires names <= endpoint.parameters.Keys && name in names && Lists(init, names - {name})
    requires d.query == QueryValues(format, endpoint, arguments, names - {name})
    requires d.headers == BaseHeaders(endpoint) + HeaderValues(format, endpoint, arguments, names - {name})
    requires d.path == P.ReplacedInOrder(endpoint.pathTemplate, init, PathValues(format, endpoint, arguments, names - {name}))
    requires Turn(format, endpoint, arguments, d, name).Done?
    ensures var after := Turn(format, endpoint, arguments, d, name).value;
      && after.query == QueryValues(format, endpoint, arguments, names)
      && after.headers == BaseHeaders(endpoint) + HeaderValues(format, endpoint, arguments, names)
      && after.path == P.ReplacedInOrder(endpoint.pathTemplate, init + [name], PathValues(format, endpoint, arguments, names))
  {
    LastTurnQuery(format, endpoint, arguments, d, name, names);
    LastTurnHeaders(format, endpoint, arguments, d, name, names);
    LastTurnPath(format, endpoint, arguments, d, init, name, names);
  }

  lemma LastTurnQuery(format: Format, endpoint: Endpoint, arguments: Arguments, d: Draft, name: string, names: set<string>)
    requires names <= endpoint.parameters.Keys && name in names
    requires d.query == QueryValues(format, endpoint, arguments, names - {name})
    requires Turn(format, endpoint, arguments, d, name).Done?
    ensures Turn(format, endpoint, arguments, d, name).value.query == QueryValues(format, endpoint, arguments, names)
  {
    var after := QueryValues(format, endpoint, arguments, names);
    assert name !in d.query;
    assert after == if name in after then d.query[name := after[name]] else d.query;
    assert name in after ==> [] + after[name] == after[name];
  }

  lemma LastTurnHeaders(format: Format, endpoint: Endpoint, arguments: Arguments, d: Draft, name: string, names: set<string>)
    requires names <= endpoint.parameters.Keys && name in names
    requires d.headers == BaseHeaders(endpoint) + HeaderValues(format, endpoint, arguments, names - {name})
    requires Turn(format, endpoint, arguments, d, name).Done?
    ensures Turn(format, endpoint, arguments, d, name).value.headers ==
      BaseHeaders(endpoint) + HeaderValues(format, endpoint, arguments, names)
  {
    var before, after :=
      HeaderValues(format, endpoint, arguments, names - {name}), HeaderValues(format, endpoint, arguments, names);
    assert after == if name in after then before[name := after[name]] else before;
  }

  lemma LastTurnPath(format: Format, endpoint: Endpoint, arguments: Arguments, d: Draft, init: seq<string>, name: string, names: set<string>)
    requires names <= endpoint.parameters.Keys && name in names && Lists(init, names - {name})
    requires d.path == P.ReplacedInOrder(endpoint.pathTemplate, init, PathValues(format, endpoint, arguments, names - {name}))
    requires Turn(format, endpoint, arguments, d, name).Done?
    ensures Turn(format, endpoint, arguments, d, name).value.path ==
      P.ReplacedInOrder(endpoint.pathTemplate, init + [name], PathValues(format, endpoint, arguments, names))
  {
    var values := PathValues(format, endpoint, arguments, names);
    SamePassesBefore(endpoint.pathTemplate, init, PathValues(format, endpoint, arguments, names - {name}), values);
    P.InOrderSplits(endpoint.pathTemplate, init, [name], values);
    assert P.ReplacedInOrder(d.path, [name], values)
        == if name in values then ReplaceAll(d.path, P.Placeholder(name), values[name]) else d.path by {
      assert [name][1..] == [];
    }
  }

  lemma {:induction false} SamePassesBefore(path: string, order: seq<string>, a: map<string, string>, b: map<string, string>)
    requires forall n :: n in order ==> (n in a <==> n in b) && (n in a ==> a[n] == b[n])
    ensures P.ReplacedInOrder(path, order, a) == P.ReplacedInOrder(path, order, b)
    decreases |order|
  {
    if order != [] {
      assert order[0] in order;
      var path' := if order[0] in a then ReplaceAll(path, P.Placeholder(order[0]), a[order[0]]) else path;
      SamePassesBefore(path', order[1..], a, b);
    }
  }

  /** Whether the request fails, and with which query and headers it is built,
      does not depend on the order the parameters are visited in. */
  lemma OrderOnlyMattersForPath(format: Format, endpoint: Endpoint, arguments: Arguments, o: Order, o': Order)
    ensures var keys := endpoint.parameters.Keys;
            var b, b' := Built(format, endpoint, arguments, o(keys)), Built(format, endpoint, arguments, o'(keys));
      && (b.Failed? <==> exists n :: n in keys && Fault(format, endpoint, arguments, n).Some?)
      && (b.Failed? <==> b'.Failed?)
      && (b.Done? ==> b.value.query == b'.value.query == QueryValues(format, endpoint, arguments, keys))
      && (b.Done? ==> b.value.headers == b'.value.headers == BaseHeaders(endpoint) + HeaderValues(format, endpoint, arguments, keys))
  {
    var keys := endpoint.parameters.Keys;
    FailsOrNot(format, endpoint, arguments, o(keys));
    FailsOrNot(format, endpoint, arguments, o'(keys));
    if Built(format, endpoint, arguments, o(keys)).Done? {
      BuiltParts(format, endpoint, arguments, o(keys), keys);
      BuiltParts(format, endpoint, arguments, o'(keys), keys);
    }
  }

  lemma FailsOrNot(format: Format, endpoint: Endpoint, arguments: Arguments, visited: seq<string>)
    requires Lists(visited, endpoint.parameters.Keys)
    ensures Built(format, endpoint, arguments, visited).Failed? <==>
      exists n :: n in endpoint.parameters && Fault(format, endpoint, arguments, n).Some?
  {
    FailsExactlyOnFault(format, endpoint, arguments, visited);
    if Built(format, endpoint, arguments, visited).Failed? {
      var e := Built(format, endpoint, arguments, visited).error;
      var i :| 0 <= i < |visited| && Fault(format, endpoint, arguments, visited[i]) == Some(e);
      assert visited[i] in visited;
    } else {
      assert forall n :: n in endpoint.parameters ==> n in visited;
    }
  }

  /** The endpoint's template, its parameter names and the given path arguments
      contain braces only as placeholders of the template. */
  ghost predicate BraceFree(format: Format, endpoint: Endpoint, arguments: Arguments, template: seq<P.Piece>) {
    && P.WellBraced(template) && endpoint.pathTemplate == P.Render(template)
    && forall n :: Given(endpoint, arguments, IN_PATH, n) ==>
         P.NoBrace(n) && P.NoBrace(ScalarText(format, arguments[n]))
  }

  /** Then the path, too, is the same for every order: the simultaneous
      substitution. And if every placeholder is a required path parameter, no
      placeholder is left in it. */
  lemma PathIsSimultaneousSubstitution(format: Format, endpoint: Endpoint, arguments: Arguments, template: seq<P.Piece>, o: Order)
    requires BraceFree(format, endpoint, arguments, template)
    requires Built(format, endpoint, arguments, o(endpoint.parameters.Keys)).Done?
    ensures var path := Built(format, endpoint, arguments, o(endpoint.parameters.Keys)).value.path;
            var values := PathValues(format, endpoint, arguments, endpoint.parameters.Keys);
      && path == P.Render(P.AtOnce(template, P.AsPieces(values)))
      && (EveryHoleIsRequired(endpoint, template) ==> P.NoBrace(path))
  {
    var keys := endpoint.parameters.Keys;
    var visited := o(keys);
    var values := PathValues(format, endpoint, arguments, keys);
    BuiltParts(format, endpoint, arguments, visited, keys);
    P.PlainValues(values, template);
    assert forall n :: n in values ==> n in keys;
    P.AnyOrderIsAtOnce(template, visited, P.AsPieces(values));
    if EveryHoleIsRequired(endpoint, template) {
      AllHolesFilled(format, endpoint, arguments, template, visited);
    }
  }

  /** Every placeholder of the template is a required path parameter. */
  ghost predicate EveryHoleIsRequired(endpoint: Endpoint, template: seq<P.Piece>) {
    forall n :: P.Mentions(template, n) ==> n in endpoint.parameters && endpoint.parameters[n] == Parameter(IN_PATH, true)
  }

  lemma AllHolesFilled(format: Format, endpoint: Endpoint, arguments: Arguments, template: seq<P.Piece>, visited: seq<string>)
    requires BraceFree(format, endpoint, arguments, template) && EveryHoleIsRequired(endpoint, template)
    requires Lists(visited, endpoint.parameters.Keys) && Built(format, endpoint, arguments, visited).Done?
    ensures var values := PathValues(format, endpoint, arguments, endpoint.parameters.Keys);
      P.NoBrace(P.Render(P.AtOnce(template, P.AsPieces(values))))
  {
    var values := PathValues(format, endpoint, arguments, endpoint.parameters.Keys);
    FailsExactlyOnFault(format, endpoint, arguments, visited);
    forall n | P.Mentions(template, n) ensures n in values {
      assert n in endpoint.parameters.Keys;
      assert n in visited;
      assert Fault(format, endpoint, arguments, n).None?;
    }
    P.NoPlaceholderLeft(template, values);
  }

  // ------------------------------------------ question marks in the path

  /** The template with its arguments has a question mark: in a part it keeps or
      in an argument it takes. */
  ghost predicate HasQuestionMark(template: seq<P.Piece>, values: map<string, string>) {
    exists p :: p in template && '?' in if p.Hole? && p.name in values then values[p.name] else P.RenderPiece(p)
  }

  lemma {:induction false} QuestionMarkShows(template: seq<P.Piece>, values: map<string, string>)
    ensures '?' in P.Render(P.AtOnce(template, P.AsPieces(values))) <==> HasQuestionMark(template, values)
  {
    if template != [] {
      var p, rest := template[0], template[1..];
      QuestionMarkShows(rest, values);
      assert template == [p] + rest;
      var filled := p.Hole? && p.name in values;
      var first := if filled then [P.Literal(values[p.name])] else [p];
      P.RenderSplits(first, P.AtOnce(rest, P.AsPieces(values)));
      assert first[1..] == [];
      assert P.Render(first) == if filled then values[p.name] else P.RenderPiece(p);
    }
  }

  /** So for brace-free calls the target reads back exactly if neither what the
      template keeps nor an argument it takes has a question mark. */
  lemma TargetReadsBack(format: Format, encodeQuery: map<string, seq<string>> -> string, endpoint: Endpoint,
                        arguments: Arguments, template: seq<P.Piece>, o: Order)
    requires BraceFree(format, endpoint, arguments, template)
    requires Built(format, endpoint, arguments, o(endpoint.parameters.Keys)).Done?
    ensures var d := Built(format, endpoint, arguments, o(endpoint.parameters.Keys)).value;
      SplitAtQuestionMark(FullPath(encodeQuery, d)) == (d.path, if d.query == map[] then None else Some(encodeQuery(d.query)))
      <==> !HasQuestionMark(template, PathValues(format, endpoint, arguments, endpoint.parameters.Keys))
  {
    PathIsSimultaneousSubstitution(format, endpoint, arguments, template, o);
    QuestionMarkShows(template, PathValues(format, endpoint, arguments, endpoint.parameters.Keys));
    FullPathReadsBack(encodeQuery, Built(format, endpoint, arguments, o(endpoint.parameters.Keys)).value);
  }

  /** Arguments go into the path unescaped: in "/items/{id}" the argument "x?y=1"
      puts a query into the target that no query parameter asked for. */
  lemma QuestionMarkArgumentBecomesQuery(format: Format, encodeQuery: map<string, seq<string>> -> string, endpoint: Endpoint,
                                         text: string, name: string, before: string, after: string, o: Order)
    requires P.NoBrace(text) && P.NoBrace(name) && '?' !in text && '?' !in before
    requires endpoint.pathTemplate == text + P.Placeholder(name)
    requires endpoint.parameters == map[name := Parameter(IN_PATH, true)]
    ensures var built := Built(format, endpoint, map[name := Text(before + "?" + after)], o({name}));
      && built.Done? && built.value.query == map[]
      && SplitAtQuestionMark(FullPath(encodeQuery, built.value)) == (text + before, Some(after))
  {
    var arguments: Arguments := map[name := Text(before + "?" + after)];
    OnlyListing(name, o({name}));
    assert [name][..0] == [];
    assert Built(format, endpoint, arguments, []) == Done(Begin(endpoint));
    P.ReplaceSkips(text, P.Placeholder(name), P.Placeholder(name), before + "?" + after);
    P.ReplaceHole(name, name, "", before + "?" + after);
    assert P.Placeholder(name) + "" == P.Placeholder(name);
    assert text + ((before + "?" + after) + "") == (text + before) + "?" + after;
    SplitFindsPath(text + before, after);
  }

  lemma OnlyListing(name: string, s: seq<string>)
    requires Lists(s, {name})
    ensures s == [name]
  {
    assert name in s;
    ListingTail(s, {name});
    NoMembers(s[1..]);
    assert s == [s[0]] + s[1..];
  }

  // --------------------------------------- exactly when the path is fixed

  /** Template and path arguments, written as pieces: any braces in them are well
      formed, and no argument names its own placeholder. */
  ghost predicate Spelled(format: Format, endpoint: Endpoint, arguments: Arguments, template: seq<P.Piece>, values: P.Values) {
    && P.WellBraced(template) && endpoint.pathTemplate == P.Render(template)
    && P.WellBracedValues(values) && P.NoSelfMention(values)
    && PathValues(format, endpoint, arguments, endpoint.parameters.Keys) == P.RenderValues(values)
  }

  /** Nothing is wrong with any parameter. */
  ghost predicate Faultless(format: Format, endpoint: Endpoint, arguments: Arguments) {
    forall n :: n in endpoint.parameters ==> Fault(format, endpoint, arguments, n).None?
  }

  ghost predicate SamePath(format: Format, endpoint: Endpoint, arguments: Arguments, o: Order, o': Order) {
    var b := Built(format, endpoint, arguments, o(endpoint.parameters.Keys));
    var b' := Built(format, endpoint, arguments, o'(endpoint.parameters.Keys));
    b.Done? && b'.Done? && b.value.path == b'.value.path
  }

  ghost predicate PathIsFixed(format: Format, endpoint: Endpoint, arguments: Arguments) {
    forall o: Order, o': Order :: SamePath(format, endpoint, arguments, o, o')
  }

  lemma BuiltPath(format: Format, endpoint: Endpoint, arguments: Arguments, o: Order)
    requires Faultless(format, endpoint, arguments)
    ensures var keys := endpoint.parameters.Keys;
            var b := Built(format, endpoint, arguments, o(keys));
      b.Done? && b.value.path == P.ReplacedInOrder(endpoint.pathTemplate, o(keys), PathValues(format, endpoint, arguments, keys))
  {
    var keys := endpoint.parameters.Keys;
    FailsOrNot(format, endpoint, arguments, o(keys));
    BuiltParts(format, endpoint, arguments, o(keys), keys);
  }

  /** The path of a request that can be built is the same for every iteration
      order exactly if no argument that reaches it names another one. */
  lemma PathIsFixedExactlyIfIndependent(format: Format, endpoint: Endpoint, arguments: Arguments, template: seq<P.Piece>, values: P.Values)
    requires Spelled(format, endpoint, arguments, template, values) && Faultless(format, endpoint, arguments)
    ensures PathIsFixed(format, endpoint, arguments) <==> P.Independent(template, values)
  {
    var keys := endpoint.parameters.Keys;
    assert values.Keys == P.RenderValues(values).Keys;
    P.OrderIndependentExactlyIfIndependent(template, keys, values);
    if PathIsFixed(format, endpoint, arguments) {
      forall l, l' | Lists(l, keys) && Lists(l', keys)
        ensures P.ReplacedInOrder(P.Render(template), l, P.RenderValues(values))
             == P.ReplacedInOrder(P.Render(template), l', P.RenderValues(values))
      {
        var o, o' := OrderWith(l, keys), OrderWith(l', keys);
        assert SamePath(format, endpoint, arguments, o, o');
        BuiltPath(format, endpoint, arguments, o);
        BuiltPath(format, endpoint, arguments, o');
      }
    } else {
      var o: Order, o': Order :| !SamePath(format, endpoint, arguments, o, o');
      BuiltPath(format, endpoint, arguments, o);
      BuiltPath(format, endpoint, arguments, o');
    }
  }

  // ----------------------------------------- what each argument is sent as

  predicate IsScalar(value: Json) {
    value.Text? || value.Number? || value.Boolean?
  }

  /** `text` is how the scalar `value` is written. */
  ghost predicate WrittenAs(format: Format, value: Json, text: string) {
    match value
    case Text(s) => text == s
    case Number(n) => text == format(n)
    case Boolean(b) => text == if b then "true" else "false"
    case _ => false
  }

  /** The values a query parameter is sent with: one for a scalar, and for an array
      one for each element, in order. */
  ghost predicate SentInQuery(format: Format, value: Json, texts: seq<string>) {
    if value.Array? then
      |texts| == |value.elements| && forall i :: 0 <= i < |texts| ==> WrittenAs(format, value.elements[i], texts[i])
    else |texts| == 1 && WrittenAs(format, value, texts[0])
  }

  lemma ScalarIsWritten(format: Format, value: Json)
    ensures JsonScalarToString(format, value).Some? <==> IsScalar(value)
    ensures IsScalar(value) ==> WrittenAs(format, value, ScalarText(format, value))
  {
  }

  lemma {:induction false} ScalarsAreWritten(format: Format, elements: seq<Json>)
    ensures Scalars(format, elements).Some? <==> forall e :: e in elements ==> IsScalar(e)
    ensures Scalars(format, elements).Some? ==> SentInQuery(format, Array(elements), Scalars(format, elements).value)
  {
    if elements != [] {
      ScalarIsWritten(format, elements[0]);
      ScalarsAreWritten(format, elements[1..]);
      assert elements == [elements[0]] + elements[1..];
    }
  }

  lemma QueryIsSent(format: Format, value: Json)
    ensures QueryParamValues(format, value).Some? <==>
      IsScalar(value) || (value.Array? && forall e :: e in value.elements ==> IsScalar(e))
    ensures QueryParamValues(format, value).Some? ==> SentInQuery(format, value, QueryTexts(format, value))
  {
    ScalarIsWritten(format, value);
    if value.Array? {
      ScalarsAreWritten(format, value.elements);
    }
  }

  /** Which parameters make a request fail, and how that is reported. */
  lemma FaultyParameters(format: Format, endpoint: Endpoint, arguments: Arguments, name: string)
    requires name in endpoint.parameters
    ensures var fault, p := Fault(format, endpoint, arguments, name), endpoint.parameters[name];
      if p.Unreadable? then fault == None
      else if name !in arguments then
        fault == if p.required then Some(ParamError(p.location, name, RequiredButMissing)) else None
      else
        var value := arguments[name];
        if p.location in ["path", "header"] then
          fault == if IsScalar(value) then None else Some(ParamError(p.location, name, MustBeScalar))
        else if p.location == "query" then
          fault ==
            if IsScalar(value) || (value.Array? && forall e :: e in value.elements ==> IsScalar(e)) then None
            else Some(ParamError("query", name, if value.Array? then ElementsMustBeScalars else MustBeScalarOrArray))
        else fault == None
  {
    if name in arguments {
      QueryIsSent(format, arguments[name]);
    }
  }

  /** Every header argument is a header, beside accept and content-type. */
  ghost predicate SaysHeaders(format: Format, endpoint: Endpoint, arguments: Arguments, headers: map<string, string>) {
    && (forall n :: n in arguments && Declared(endpoint, n, "header") ==>
          n in headers && WrittenAs(format, arguments[n], headers[n]))
    && (forall n :: !(n in arguments && Declared(endpoint, n, "header")) ==>
          (n in headers <==> n == "accept" || (n == "content-type" && endpoint.contentType != ""))
          && (n in headers ==> headers[n] == if n == "accept" then "*/*" else endpoint.contentType))
  }

  /** The query has the values of every query argument, and nothing else. */
  ghost predicate SaysQuery(format: Format, endpoint: Endpoint, arguments: Arguments, query: map<string, seq<string>>) {
    && (forall n :: n in query <==> n in arguments && Declared(endpoint, n, "query") && arguments[n] != Array([]))
    && (forall n :: n in query ==> SentInQuery(format, arguments[n], query[n]))
  }

  /** `values` are the texts of the path arguments. */
  ghost predicate SaysPath(format: Format, endpoint: Endpoint, arguments: Arguments, values: map<string, string>) {
    && (forall n :: n in values <==> n in arguments && Declared(endpoint, n, "path"))
    && (forall n :: n in values ==> WrittenAs(format, arguments[n], values[n]))
  }

  lemma FaultlessArgument(format: Format, endpoint: Endpoint, arguments: Arguments, n: string)
    requires n in arguments && n in endpoint.parameters && Fault(format, endpoint, arguments, n).None?
    ensures Declared(endpoint, n, "path") || Declared(endpoint, n, "header") ==>
      WrittenAs(format, arguments[n], ScalarText(format, arguments[n]))
    ensures Declared(endpoint, n, "query") ==>
      && SentInQuery(format, arguments[n], QueryTexts(format, arguments[n]))
      && (QueryTexts(format, arguments[n]) == [] <==> arguments[n] == Array([]))
  {
    FaultyParameters(format, endpoint, arguments, n);
    ScalarIsWritten(format, arguments[n]);
    QueryIsSent(format, arguments[n]);
  }

  lemma FaultlessSays(format: Format, endpoint: Endpoint, arguments: Arguments)
    requires Faultless(format, endpoint, arguments)
    ensures SaysHeaders(format, endpoint, arguments,
                        BaseHeaders(endpoint) + HeaderValues(format, endpoint, arguments, endpoint.parameters.Keys))
    ensures SaysQuery(format, endpoint, arguments, QueryValues(format, endpoint, arguments, endpoint.parameters.Keys))
    ensures SaysPath(format, endpoint, arguments, PathValues(format, endpoint, arguments, endpoint.parameters.Keys))
  {
    forall n | n in arguments && n in endpoint.parameters
      ensures Declared(endpoint, n, "path") || Declared(endpoint, n, "header") ==>
        WrittenAs(format, arguments[n], ScalarText(format, arguments[n]))
      ensures Declared(endpoint, n, "query") ==>
        && SentInQuery(format, arguments[n], QueryTexts(format, arguments[n]))
        && (QueryTexts(format, arguments[n]) == [] <==> arguments[n] == Array([]))
    {
      FaultlessArgument(format, endpoint, arguments, n);
    }
    assert |"accept"| == 6 && |"content-type"| == 12;
  }

  /** A built request by its arguments: headers and query say them, and the path is
      the template with each path argument in turn put for its placeholder. */
  lemma BuiltSaysArguments(format: Format, endpoint: Endpoint, arguments: Arguments, o: Order) returns (values: map<string, string>)
    requires Built(format, endpoint, arguments, o(endpoint.parameters.Keys)).Done?
    ensures var d := Built(format, endpoint, arguments, o(endpoint.parameters.Keys)).value;
      && SaysHeaders(format, endpoint, arguments, d.headers)
      && SaysQuery(format, endpoint, arguments, d.query)
      && SaysPath(format, endpoint, arguments, values)
      && d.path == P.ReplacedInOrder(endpoint.pathTemplate, o(endpoint.parameters.Keys), values)
  {
    var keys := endpoint.parameters.Keys;
    FailsOrNot(format, endpoint, arguments, o(keys));
    BuiltParts(format, endpoint, arguments, o(keys), keys);
    FaultlessSays(format, endpoint, arguments);
    values := PathValues(format, endpoint, arguments, keys);
  }

  /** A body is sent for POST, PUT and PATCH, in any case, and then it is the
      argument called body, if there is one. */
  lemma BodyArgument(marshal: Json -> Option<Bytes>, endpoint: Endpoint, arguments: Arguments)
    ensures MarshalRequestBody(marshal, endpoint, arguments) ==
      if ToLower(endpoint.httpMethod) in ["post", "put", "patch"] && "body" in arguments then marshal(arguments["body"])
      else Some([])
  {
  }

  /** No path argument has a brace in its name or its text. */
  ghost predicate PlainPathArguments(format: Format, endpoint: Endpoint, arguments: Arguments) {
    forall n :: Given(endpoint, arguments, "path", n) ==> P.NoBrace(n) && WritesNoBrace(format, arguments[n])
  }

  ghost predicate WritesNoBrace(format: Format, value: Json) {
    forall text :: WrittenAs(format, value, text) ==> P.NoBrace(text)
  }

  /** In "/items/{id}/notes" the argument for id is put between "/items/" and
      "/notes", whatever the other parameters are. */
  lemma PlaceholderIsFilled(format: Format, endpoint: Endpoint, arguments: Arguments, before: string, name: string, after: string, o: Order)
    returns (text: string)
    requires endpoint.pathTemplate == before + "{" + name + "}" + after
    requires P.NoBrace(before) && P.NoBrace(name) && P.NoBrace(after) && Given(endpoint, arguments, "path", name)
    requires PlainPathArguments(format, endpoint, arguments)
    requires Built(format, endpoint, arguments, o(endpoint.parameters.Keys)).Done?
    ensures WrittenAs(format, arguments[name], text)
    ensures Built(format, endpoint, arguments, o(endpoint.parameters.Keys)).value.path == before + text + after
  {
    FailsOrNot(format, endpoint, arguments, o(endpoint.parameters.Keys));
    FaultlessArgument(format, endpoint, arguments, name);
    text := ScalarText(format, arguments[name]);
    OneHole(before, name, after, PathValues(format, endpoint, arguments, endpoint.parameters.Keys));
    PlainIsBraceFree(format, endpoint, arguments, [P.Literal(before), P.Hole(name), P.Literal(after)]);
    PathIsSimultaneousSubstitution(format, endpoint, arguments, [P.Literal(before), P.Hole(name), P.Literal(after)], o);
  }

  lemma PlainIsBraceFree(format: Format, endpoint: Endpoint, arguments: Arguments, template: seq<P.Piece>)
    requires Faultless(format, endpoint, arguments) && PlainPathArguments(format, endpoint, arguments)
    requires P.WellBraced(template) && endpoint.pathTemplate == P.Render(template)
    ensures BraceFree(format, endpoint, arguments, template)
  {
    forall n | Given(endpoint, arguments, IN_PATH, n) ensures P.NoBrace(n) && P.NoBrace(ScalarText(format, arguments[n])) {
      FaultlessArgument(format, endpoint, arguments, n);
      assert WritesNoBrace(format, arguments[n]);
    }
  }

  lemma OneHole(before: string, name: string, after: string, values: map<string, string>)
    requires P.NoBrace(before) && P.NoBrace(name) && P.NoBrace(after) && name in values
    ensures var template := [P.Literal(before), P.Hole(name), P.Literal(after)];
      && P.WellBraced(template)
      && P.Render(template) == before + "{" + name + "}" + after
      && P.Render(P.AtOnce(template, P.AsPieces(values))) == before + values[name] + after
  {
    RenderThree(P.Literal(before), P.Hole(name), P.Literal(after));
    RenderThree(P.Literal(before), P.Literal(values[name]), P.Literal(after));
    FillTheHole(P.Literal(before), name, P.Literal(after), P.AsPieces(values));
    assert P.Placeholder(name) == "{" + name + "}";
    Associates(before, "{" + name + "}", after);
    assert before + ("{" + name + "}") == before + "{" + name + "}";
    assert P.AsPieces(values)[name] == [P.Literal(values[name])];
  }

  lemma FillTheHole(first: P.Piece, name: string, last: P.Piece, values: P.Values)
    requires first.Literal? && last.Literal? && name in values
    ensures P.AtOnce([first, P.Hole(name), last], values) == [first] + values[name] + [last]
  {
    AtOnceOfOne(first, values);
    AtOnceOfOne(P.Hole(name), values);
    AtOnceOfOne(last, values);
    assert [first, P.Hole(name), last] == [first] + [P.Hole(name)] + [last];
    P.AtOnceSplits([first], [P.Hole(name)], values);
    P.AtOnceSplits([first] + [P.Hole(name)], [last], values);
  }

  lemma RenderThree(a: P.Piece, b: P.Piece, c: P.Piece)
    ensures P.Render([a, b, c]) == P.Render([a] + [b] + [c]) == P.RenderPiece(a) + P.RenderPiece(b) + P.RenderPiece(c)
  {
    RenderOne(a);
    RenderOne(b);
    RenderOne(c);
    assert [a, b, c] == [a] + [b] + [c];
    P.RenderSplits([a], [b]);
    P.RenderSplits([a] + [b], [c]);
  }

  lemma RenderOne(p: P.Piece)
    ensures P.Render([p]) == P.RenderPiece(p)
  {
    assert [p][1..] == [];
  }

  lemma AtOnceOfOne(p: P.Piece, values: P.Values)
    ensures P.AtOnce([p], values) == if p.Hole? && p.name in values then values[p.name] else [p]
  {
    assert [p][1..] == [];
    assert P.AtOnce([], values) == [];
  }
}

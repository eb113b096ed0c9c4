/** The request the upstream sees for a tool call, and when it is the same however
    Go happens to iterate over the maps it is made from. */
module UpstreamRequest {
  import opened Common
  import opened Text
  import opened Wire
  import opened Rpc
  import opened HeaderValidation
  import opened Handler
  import Registry
  import E = EndpointRequests
  import P = Placeholders
  import R = Reroute

  /** The endpoint and the arguments of the call in a body. */
  datatype Target = Target(endpoint: Registry.Endpoint, arguments: E.Arguments)

  function TargetOf(s: Server, body: Bytes): Option<Target> {
    match CallOf(s, body)
    case None => None
    case Some(call) =>
      match DecodeToolCall(call.params)
      case None => None
      case Some((name, arguments)) =>
        if name in s.catalog.configs then Some(Target(s.catalog.configs[name].endpoint, arguments)) else None
  }

  /** The headers the endpoint's request adds: accept, content-type and the header
      parameters that are given. */
  function ExtraHeaders(s: Server, t: Target): map<string, string> {
    E.BaseHeaders(t.endpoint) + E.HeaderValues(s.lib.format, t.endpoint, t.arguments, t.endpoint.parameters.Keys)
  }

  function BuiltFor(s: Server, t: Target, o: Order): E.Outcome<E.Draft> {
    E.Built(s.lib.format, t.endpoint, t.arguments, o(t.endpoint.parameters.Keys))
  }

  /** The client's headers as the upstream sees them. */
  ghost function UpstreamHeaders(s: Server, t: Target, hdrs: McpRequestHeaders, client: map<string, string>, path: string,
                                 o: Order): map<string, string>
  {
    R.Seen(client, t.endpoint.host, ToUpper(t.endpoint.httpMethod), path, ExtraHeaders(s, t), hdrs.paramHeaderNames, o)
  }

  /** The request is sent on under both walks, and the upstream sees the same. */
  ghost predicate SameUpstream(s: Server, body: Bytes, hdrs: McpRequestHeaders, client: map<string, string>, w: Walk, w': Walk) {
    var r, r' := McpRequestHandler(s, body, hdrs, w).reroute, McpRequestHandler(s, body, hdrs, w').reroute;
    && r.Some? && r'.Some?
    && r.value.body == r'.value.body
    && r.value.headers.HeadersAnswer? && r'.value.headers.HeadersAnswer?
    && R.Effect(client, r.value.headers.common) == R.Effect(client, r'.value.headers.common)
  }

  ghost predicate UpstreamIsFixed(s: Server, body: Bytes, hdrs: McpRequestHeaders, client: map<string, string>) {
    forall w, w' :: SameUpstream(s, body, hdrs, client, w, w')
  }

  /** What is sent on under a walk: all that depends on the walk is the path and
      the order in which the extra headers are set. */
  ghost predicate SentOn(s: Server, t: Target, hdrs: McpRequestHeaders, client: map<string, string>, w: Walk, m: StreamedMutation) {
    var built := BuiltFor(s, t, w.parameters);
    && built.Done?
    && built.value.query == E.QueryValues(s.lib.format, t.endpoint, t.arguments, t.endpoint.parameters.Keys)
    && Some(m.body) == E.MarshalRequestBody(s.lib.marshal, t.endpoint, t.arguments)
    && m.headers.HeadersAnswer?
    && R.Effect(client, m.headers.common) ==
         UpstreamHeaders(s, t, hdrs, client, E.FullPath(s.lib.encodeQuery, built.value), w.extraHeaders)
  }

  lemma RerouteIsSentOn(s: Server, body: Bytes, hdrs: McpRequestHeaders, client: map<string, string>, w: Walk)
    requires McpRequestHandler(s, body, hdrs, w).reroute.Some?
    ensures TargetOf(s, body).Some?
    ensures SentOn(s, TargetOf(s, body).value, hdrs, client, w, McpRequestHandler(s, body, hdrs, w).reroute.value)
  {
    RerouteTarget(s, body, hdrs, w);
    TargetIsSentOn(s, TargetOf(s, body).value, hdrs, client, w);
  }

  lemma TargetIsSentOn(s: Server, t: Target, hdrs: McpRequestHeaders, client: map<string, string>, w: Walk)
    requires BuiltFor(s, t, w.parameters).Done? && E.MarshalRequestBody(s.lib.marshal, t.endpoint, t.arguments).Some?
    ensures var d := BuiltFor(s, t, w.parameters).value;
      SentOn(s, t, hdrs, client, w,
             R.Rerouted(t.endpoint.host, ToUpper(t.endpoint.httpMethod), E.FullPath(s.lib.encodeQuery, d),
                        E.MarshalRequestBody(s.lib.marshal, t.endpoint, t.arguments).value, d.headers,
                        hdrs.paramHeaderNames, w.extraHeaders))
  {
    E.OrderOnlyMattersForPath(s.lib.format, t.endpoint, t.arguments, w.parameters, w.parameters);
  }

  lemma ReroutedUnderAnyWalk(s: Server, body: Bytes, hdrs: McpRequestHeaders, w: Walk, w': Walk)
    requires McpRequestHandler(s, body, hdrs, w).reroute.Some?
    ensures McpRequestHandler(s, body, hdrs, w').reroute.Some?
    ensures TargetOf(s, body).Some?
    ensures E.Faultless(s.lib.format, TargetOf(s, body).value.endpoint, TargetOf(s, body).value.arguments)
  {
    ReroutedExactlyIf(s, body, hdrs, w);
    ReroutedExactlyIf(s, body, hdrs, w');
  }

  /** Two walks that agree on what the upstream sees. */
  ghost predicate SameHeaders(s: Server, t: Target, hdrs: McpRequestHeaders, client: map<string, string>, w: Walk, w': Walk) {
    && BuiltFor(s, t, w.parameters).Done? && BuiltFor(s, t, w'.parameters).Done?
    && UpstreamHeaders(s, t, hdrs, client, E.FullPath(s.lib.encodeQuery, BuiltFor(s, t, w.parameters).value), w.extraHeaders)
    == UpstreamHeaders(s, t, hdrs, client, E.FullPath(s.lib.encodeQuery, BuiltFor(s, t, w'.parameters).value), w'.extraHeaders)
  }

  /** So the upstream sees the same under two walks exactly if the headers agree. */
  lemma SameUpstreamIsSameHeaders(s: Server, body: Bytes, hdrs: McpRequestHeaders, client: map<string, string>, w: Walk, w': Walk)
    requires McpRequestHandler(s, body, hdrs, w).reroute.Some?
    ensures TargetOf(s, body).Some?
    ensures SameUpstream(s, body, hdrs, client, w, w') <==> SameHeaders(s, TargetOf(s, body).value, hdrs, client, w, w')
  {
    ReroutedUnderAnyWalk(s, body, hdrs, w, w');
    RerouteIsSentOn(s, body, hdrs, client, w);
    RerouteIsSentOn(s, body, hdrs, client, w');
  }

  // ------------------------------------------------------ in both directions

  lemma SameTargetSamePath(encodeQuery: map<string, seq<string>> -> string, d: E.Draft, d': E.Draft)
    requires d.query == d'.query
    ensures E.FullPath(encodeQuery, d) == E.FullPath(encodeQuery, d') <==> d.path == d'.path
  {
    var rest := if d.query == map[] then "" else "?" + encodeQuery(d.query);
    assert E.FullPath(encodeQuery, d) == d.path + rest && E.FullPath(encodeQuery, d') == d'.path + rest;
    if d.path + rest == d'.path + rest {
      assert |d.path| == |d'.path|;
      assert d.path == (d.path + rest)[..|d.path|];
    }
  }

  /** The headers show the path. */
  lemma SameHeadersSamePath(s: Server, t: Target, hdrs: McpRequestHeaders, client: map<string, string>, w: Walk, w': Walk)
    requires SameHeaders(s, t, hdrs, client, w, w')
    ensures E.SamePath(s.lib.format, t.endpoint, t.arguments, w.parameters, w'.parameters)
  {
    E.OrderOnlyMattersForPath(s.lib.format, t.endpoint, t.arguments, w.parameters, w'.parameters);
    var d, d' := BuiltFor(s, t, w.parameters).value, BuiltFor(s, t, w'.parameters).value;
    var verb := ToUpper(t.endpoint.httpMethod);
    R.RerouteEffect(client, t.endpoint.host, verb, E.FullPath(s.lib.encodeQuery, d), ExtraHeaders(s, t),
                    hdrs.paramHeaderNames, w.extraHeaders, ":path");
    R.RerouteEffect(client, t.endpoint.host, verb, E.FullPath(s.lib.encodeQuery, d'), ExtraHeaders(s, t),
                    hdrs.paramHeaderNames, w'.extraHeaders, ":path");
    SameTargetSamePath(s.lib.encodeQuery, d, d');
  }

  lemma SamePathSameTarget(s: Server, t: Target, o: Order, o': Order)
    requires E.SamePath(s.lib.format, t.endpoint, t.arguments, o, o')
    ensures E.FullPath(s.lib.encodeQuery, BuiltFor(s, t, o).value) == E.FullPath(s.lib.encodeQuery, BuiltFor(s, t, o').value)
  {
    E.OrderOnlyMattersForPath(s.lib.format, t.endpoint, t.arguments, o, o');
    SameTargetSamePath(s.lib.encodeQuery, BuiltFor(s, t, o).value, BuiltFor(s, t, o').value);
  }

  ghost predicate HeadersAreFixed(s: Server, t: Target, hdrs: McpRequestHeaders, client: map<string, string>) {
    forall w, w' :: SameHeaders(s, t, hdrs, client, w, w')
  }

  lemma FixedHeadersFixPath(s: Server, t: Target, hdrs: McpRequestHeaders, client: map<string, string>)
    requires HeadersAreFixed(s, t, hdrs, client)
    ensures E.PathIsFixed(s.lib.format, t.endpoint, t.arguments)
  {
    forall o: Order, o': Order ensures E.SamePath(s.lib.format, t.endpoint, t.arguments, o, o') {
      HeadersFixed(s, t, hdrs, client, Walk(o, o), Walk(o', o));
      SameHeadersSamePath(s, t, hdrs, client, Walk(o, o), Walk(o', o));
    }
  }

  lemma HeadersFixed(s: Server, t: Target, hdrs: McpRequestHeaders, client: map<string, string>, w: Walk, w': Walk)
    requires HeadersAreFixed(s, t, hdrs, client)
    ensures SameHeaders(s, t, hdrs, client, w, w')
  {
  }

  /** The path sent on when the parameters are visited in this order. */
  ghost function PathUnder(s: Server, t: Target, o: Order): string
    requires BuiltFor(s, t, o).Done?
  {
    E.FullPath(s.lib.encodeQuery, BuiltFor(s, t, o).value)
  }

  lemma FixedForOnePath(s: Server, t: Target, hdrs: McpRequestHeaders, client: map<string, string>, p: Order, o: Order, o': Order)
    requires HeadersAreFixed(s, t, hdrs, client)
    ensures BuiltFor(s, t, p).Done?
    ensures R.Seen(client, t.endpoint.host, ToUpper(t.endpoint.httpMethod), PathUnder(s, t, p), ExtraHeaders(s, t), hdrs.paramHeaderNames, o)
         == R.Seen(client, t.endpoint.host, ToUpper(t.endpoint.httpMethod), PathUnder(s, t, p), ExtraHeaders(s, t), hdrs.paramHeaderNames, o')
  {
    HeadersFixed(s, t, hdrs, client, Walk(p, o), Walk(p, o'));
  }

  lemma FixedHeadersAreUnambiguous(s: Server, t: Target, hdrs: McpRequestHeaders, client: map<string, string>, p: Order)
    requires HeadersAreFixed(s, t, hdrs, client)
    ensures R.Unambiguous(ExtraHeaders(s, t))
  {
    FixedForOnePath(s, t, hdrs, client, p, p, p);
    var host, verb, path, extra, strip :=
      t.endpoint.host, ToUpper(t.endpoint.httpMethod), PathUnder(s, t, p), ExtraHeaders(s, t), hdrs.paramHeaderNames;
    if !R.Unambiguous(extra) {
      var o, o' := R.AmbiguousIsNotFixed(client, host, verb, path, extra, strip);
      FixedForOnePath(s, t, hdrs, client, p, o, o');
      assert false;
    }
  }

  lemma FixedPathFixesHeaders(s: Server, t: Target, hdrs: McpRequestHeaders, client: map<string, string>)
    requires E.PathIsFixed(s.lib.format, t.endpoint, t.arguments) && R.Unambiguous(ExtraHeaders(s, t))
    ensures HeadersAreFixed(s, t, hdrs, client)
  {
    forall w: Walk, w': Walk ensures SameHeaders(s, t, hdrs, client, w, w') {
      assert E.SamePath(s.lib.format, t.endpoint, t.arguments, w.parameters, w'.parameters);
      SamePathSameTarget(s, t, w.parameters, w'.parameters);
      R.UnambiguousIsFixed(client, t.endpoint.host, ToUpper(t.endpoint.httpMethod),
                           E.FullPath(s.lib.encodeQuery, BuiltFor(s, t, w.parameters).value), ExtraHeaders(s, t),
                           hdrs.paramHeaderNames, w.extraHeaders, w'.extraHeaders);
    }
  }

  /** A request that is sent on under one iteration order is sent on under all of
      them, and the upstream then sees the same request exactly if no path argument
      names another one and no two extra headers have the same name, up to case,
      and different values. */
  lemma UpstreamIsFixedExactlyIf(s: Server, body: Bytes, hdrs: McpRequestHeaders, client: map<string, string>, w: Walk,
                                 template: seq<P.Piece>, values: P.Values)
    requires McpRequestHandler(s, body, hdrs, w).reroute.Some?
    requires TargetOf(s, body).Some? ==>
      E.Spelled(s.lib.format, TargetOf(s, body).value.endpoint, TargetOf(s, body).value.arguments, template, values)
    ensures TargetOf(s, body).Some?
    ensures UpstreamIsFixed(s, body, hdrs, client) <==>
      P.Independent(template, values) && R.Unambiguous(ExtraHeaders(s, TargetOf(s, body).value))
  {
    ReroutedUnderAnyWalk(s, body, hdrs, w, w);
    var t := TargetOf(s, body).value;
    forall v, v' ensures SameUpstream(s, body, hdrs, client, v, v') <==> SameHeaders(s, t, hdrs, client, v, v') {
      ReroutedUnderAnyWalk(s, body, hdrs, w, v);
      SameUpstreamIsSameHeaders(s, body, hdrs, client, v, v');
    }
    E.PathIsFixedExactlyIfIndependent(s.lib.format, t.endpoint, t.arguments, template, values);
    FixedExactlyIf(s, t, hdrs, client);
  }

  lemma FixedExactlyIf(s: Server, t: Target, hdrs: McpRequestHeaders, client: map<string, string>)
    ensures HeadersAreFixed(s, t, hdrs, client) <==>
      E.PathIsFixed(s.lib.format, t.endpoint, t.arguments) && R.Unambiguous(ExtraHeaders(s, t))
  {
    if HeadersAreFixed(s, t, hdrs, client) {
      FixedHeadersFixPath(s, t, hdrs, client);
      FixedHeadersAreUnambiguous(s, t, hdrs, client, SomeOrder());
    } else if E.PathIsFixed(s.lib.format, t.endpoint, t.arguments) && R.Unambiguous(ExtraHeaders(s, t)) {
      FixedPathFixesHeaders(s, t, hdrs, client);
    }
  }

  /** For a brace-free template and brace-free arguments the path never depends on
      the order, so that only the extra headers can. */
  lemma BraceFreeIsFixedExactlyIfUnambiguous(s: Server, body: Bytes, hdrs: McpRequestHeaders, client: map<string, string>, w: Walk,
                                             template: seq<P.Piece>)
    requires McpRequestHandler(s, body, hdrs, w).reroute.Some?
    requires TargetOf(s, body).Some? ==>
      E.BraceFree(s.lib.format, TargetOf(s, body).value.endpoint, TargetOf(s, body).value.arguments, template)
    ensures TargetOf(s, body).Some?
    ensures UpstreamIsFixed(s, body, hdrs, client) <==> R.Unambiguous(ExtraHeaders(s, TargetOf(s, body).value))
  {
    ReroutedUnderAnyWalk(s, body, hdrs, w, w);
    var t := TargetOf(s, body).value;
    var values := E.PathValues(s.lib.format, t.endpoint, t.arguments, t.endpoint.parameters.Keys);
    P.PlainValues(values, template);
    UpstreamIsFixedExactlyIf(s, body, hdrs, client, w, template, P.AsPieces(values));
  }

  /** An endpoint with a header parameter spelled "Accept": whenever the argument is
      not the processor's own default, the order shows. */
  lemma AcceptParameterIsNotFixed(s: Server, body: Bytes, hdrs: McpRequestHeaders, client: map<string, string>, w: Walk,
                                  template: seq<P.Piece>, value: string)
    requires McpRequestHandler(s, body, hdrs, w).reroute.Some?
    requires TargetOf(s, body).Some? ==>
      var t := TargetOf(s, body).value;
      && E.BraceFree(s.lib.format, t.endpoint, t.arguments, template)
      && E.Given(t.endpoint, t.arguments, E.IN_HEADER, "Accept") && t.arguments["Accept"] == Text(value) && value != "*/*"
      && !E.Given(t.endpoint, t.arguments, E.IN_HEADER, "accept")
    ensures !UpstreamIsFixed(s, body, hdrs, client)
  {
    ReroutedUnderAnyWalk(s, body, hdrs, w, w);
    AcceptIsAmbiguous(s, TargetOf(s, body).value, value);
    BraceFreeIsFixedExactlyIfUnambiguous(s, body, hdrs, client, w, template);
  }

  lemma AcceptIsAmbiguous(s: Server, t: Target, value: string)
    requires E.Given(t.endpoint, t.arguments, E.IN_HEADER, "Accept") && t.arguments["Accept"] == Text(value) && value != "*/*"
    requires !E.Given(t.endpoint, t.arguments, E.IN_HEADER, "accept")
    ensures !R.Unambiguous(ExtraHeaders(s, t))
  {
    var extra := ExtraHeaders(s, t);
    R.SpellingsOfAccept();
    assert "accept" != "content-type" && "Accept" != "content-type" by {
      assert |"accept"| == |"Accept"| == 6 && |"content-type"| == 12;
    }
    assert extra["accept"] == "*/*" && extra["Accept"] == value;
  }
}

/** The header mutation that turns a tool call into the upstream request:
    `rerouteWithBodyMutation`, and its effect on the client's headers. */
module Reroute {
  import opened Common
  import opened Text
  import opened Wire
  import opened HeaderValidation

  const REMOVE_ON_ROUTING: seq<string> :=
    ["content-length", "content-type", HEADER_PROTOCOL_VERSION, HEADER_METHOD, HEADER_NAME]

  function HeaderSets(extra: map<string, string>, visited: seq<string>): seq<HeaderSet>
    requires forall k :: k in visited ==> k in extra
  {
    seq(|visited|, i requires 0 <= i < |visited| =>
      assert visited[i] in visited; HeaderSet(visited[i], extra[visited[i]]))
  }

  function Routing(host: string, httpMethod: string, path: string): seq<HeaderSet> {
    [HeaderSet(":method", httpMethod), HeaderSet(":path", path), HeaderSet(":authority", host)]
  }

  /** Extra headers in the order visited, then the three routing headers. */
  function Rerouted(host: string, httpMethod: string, path: string, body: Bytes, extra: map<string, string>,
                    strip: seq<string>, order: Order): StreamedMutation
  {
    StreamedMutation(
      HeaderMutation(Request, HeaderSets(extra, order(extra.Keys)) + Routing(host, httpMethod, path), REMOVE_ON_ROUTING + strip),
      body)
  }

  // -------------------------------------------------- the shared removal list

  /** A Go slice that starts at its backing array's first element; the rest of
      the array is spare capacity. */
  datatype Slice = Slice(backing: array<string>, length: nat) {
    predicate Valid() {
      length <= backing.Length
    }

    function Contents(): seq<string>
      reads backing
      requires Valid()
    {
      backing[..length]
    }
  }

  /** slices.Clone: another array, with as much spare capacity as the runtime
      chooses. */
  method Clone(s: Slice, spare: nat) returns (c: Slice)
    requires s.Valid()
    ensures c.Valid() && fresh(c.backing) && c.Contents() == s.Contents()
    ensures c.length == s.length && c.backing.Length == s.length + spare
  {
    var data := new string[s.length + spare](_ => "");
    for i := 0 to s.length
      invariant data[..i] == s.backing[..i]
    {
      data[i] := s.backing[i];
    }
    c := Slice(data, s.length);
  }

  /** append: in place while the spare capacity lasts, which overwrites what any
      other slice of the array has there; else in a new array. */
  method Append(s: Slice, xs: seq<string>, spare: nat) returns (r: Slice)
    requires s.Valid()
    modifies s.backing
    ensures r.Valid() && r.Contents() == old(s.Contents()) + xs
    ensures s.Contents() == old(s.Contents())
    ensures if s.length + |xs| <= s.backing.Length then r.backing == s.backing else fresh(r.backing)
  {
    if s.length + |xs| <= s.backing.Length {
      r := Slice(s.backing, s.length + |xs|);
    } else {
      r := Clone(s, |xs| + spare);
      r := r.(length := s.length + |xs|);
    }
    for i := 0 to |xs|
      invariant r.backing[..s.length] == old(s.Contents())
      invariant r.backing[s.length..s.length + i] == xs[..i]
      invariant r.backing != s.backing ==> s.Contents() == old(s.Contents())
      modifies r.backing
    {
      r.backing[s.length + i] := xs[i];
      assert r.backing[s.length..s.length + i + 1] == r.backing[s.length..s.length + i] + [xs[i]];
    }
    assert r.Contents() == r.backing[..s.length] + r.backing[s.length..r.length];
    assert xs[..|xs|] == xs;
  }

  /** The mutation, and the removal list it refers to. `shared` is the list all
      reroutes share, of any capacity. The method modifies nothing that exists:
      not that list, its spare capacity included, nor the list of any earlier
      mutation. */
  method RerouteWithBodyMutation(shared: Slice, host: string, httpMethod: string, path: string, body: Bytes,
                                 extra: map<string, string>, strip: seq<string>, order: Order, spare: nat, spare': nat)
    returns (m: StreamedMutation, removeHeaders: Slice)
    requires shared.Valid() && shared.Contents() == REMOVE_ON_ROUTING
    ensures m == Rerouted(host, httpMethod, path, body, extra, strip, order)
    ensures removeHeaders.Valid() && removeHeaders.Contents() == m.headers.common.removeHeaders
    ensures if strip == [] then removeHeaders == shared else fresh(removeHeaders.backing)
  {
    var headers: seq<HeaderSet> := [];
    var visited := order(extra.Keys);
    for i := 0 to |visited|
      invariant headers == HeaderSets(extra, visited)[..i]
    {
      assert visited[i] in visited;
      headers := headers + [HeaderSet(visited[i], extra[visited[i]])];
    }
    assert HeaderSets(extra, visited)[..|visited|] == HeaderSets(extra, visited);
    headers := headers + [HeaderSet(":method", httpMethod)];
    headers := headers + [HeaderSet(":path", path)];
    headers := headers + [HeaderSet(":authority", host)];
    assert headers == HeaderSets(extra, visited) + Routing(host, httpMethod, path);
    removeHeaders := shared;
    if |strip| > 0 {
      var cloned := Clone(shared, spare);
      removeHeaders := Append(cloned, strip, spare');
    }
    assert removeHeaders.Contents() == REMOVE_ON_ROUTING + strip;
    m := StreamedMutation(HeaderMutation(Request, headers, removeHeaders.Contents()), body);
  }

  /** What one reroute is asked for, and the capacities the runtime picks. */
  datatype Asked = Asked(host: string, httpMethod: string, path: string, body: Bytes, extra: map<string, string>,
                         strip: seq<string>, order: Order, spare: nat, spare': nat)
  {
    function Mutation(): StreamedMutation {
      Rerouted(host, httpMethod, path, body, extra, strip, order)
    }
  }

  /** Any number of reroutes one after the other: at the end the shared array is
      what it was, and every list handed out still is its own mutation's. */
  method RerouteAll(shared: Slice, asked: seq<Asked>) returns (ms: seq<StreamedMutation>, lists: seq<Slice>)
    requires shared.Valid() && shared.Contents() == REMOVE_ON_ROUTING
    ensures shared.backing[..] == old(shared.backing[..])
    ensures |ms| == |lists| == |asked|
    ensures forall i :: 0 <= i < |asked| ==> ms[i] == asked[i].Mutation()
    ensures forall i :: 0 <= i < |asked| ==> lists[i].Valid() && lists[i].Contents() == REMOVE_ON_ROUTING + asked[i].strip
  {
    ms, lists := [], [];
    for k := 0 to |asked|
      invariant |ms| == |lists| == k
      invariant forall i :: 0 <= i < k ==> ms[i] == asked[i].Mutation()
      invariant forall i :: 0 <= i < k ==> lists[i].Valid() && lists[i].Contents() == REMOVE_ON_ROUTING + asked[i].strip
    {
      var a := asked[k];
      var m, list := RerouteWithBodyMutation(shared, a.host, a.httpMethod, a.path, a.body, a.extra, a.strip, a.order, a.spare, a.spare');
      ms, lists := ms + [m], lists + [list];
    }
  }

  // ----------------------------------------------------------- its effect

  function SetAll(headers: map<string, string>, sets: seq<HeaderSet>): map<string, string>
    decreases |sets|
  {
    if sets == [] then headers else SetAll(headers[ToLower(sets[0].key) := sets[0].value], sets[1..])
  }

  /** A header mutation as the proxy applies it: removals, then the sets in list
      order, each overwriting what is there. Header names are case-insensitive
      (section 5.1 of RFC 9110); `headers` has them in lower case. */
  function Effect(headers: map<string, string>, common: CommonResponse): map<string, string> {
    SetAll(headers - (set k | k in common.removeHeaders :: ToLower(k)), common.setHeaders)
  }

  function Lookup(headers: map<string, string>, name: string): Option<string> {
    if name in headers then Some(headers[name]) else None
  }

  /** The value that the last of the sets for a name gives it. */
  function LastSet(sets: seq<HeaderSet>, name: string): Option<string> {
    if sets == [] then None
    else
      match LastSet(sets[1..], name)
      case Some(value) => Some(value)
      case None => if ToLower(sets[0].key) == name then Some(sets[0].value) else None
  }

  lemma {:induction false} SetByName(headers: map<string, string>, sets: seq<HeaderSet>, name: string)
    ensures Lookup(SetAll(headers, sets), name) ==
      if LastSet(sets, name).Some? then LastSet(sets, name) else Lookup(headers, name)
    decreases |sets|
  {
    if sets != [] {
      SetByName(headers[ToLower(sets[0].key) := sets[0].value], sets[1..], name);
    }
  }

  lemma {:induction false} LastSetSplits(a: seq<HeaderSet>, b: seq<HeaderSet>, name: string)
    ensures LastSet(a + b, name) == if LastSet(b, name).Some? then LastSet(b, name) else LastSet(a, name)
  {
    if a == [] {
      assert a + b == b;
    } else {
      assert (a + b)[1..] == a[1..] + b;
      LastSetSplits(a[1..], b, name);
    }
  }

  const ROUTING_NAMES := [":method", ":path", ":authority"]

  lemma RoutingByName(host: string, httpMethod: string, path: string, name: string)
    ensures LastSet(Routing(host, httpMethod, path), name) ==
      if name == ":method" then Some(httpMethod)
      else if name == ":path" then Some(path)
      else if name == ":authority" then Some(host)
      else None
  {
    assert ToLower(":method") == ":method" && ToLower(":path") == ":path" && ToLower(":authority") == ":authority";
    var routing := Routing(host, httpMethod, path);
    assert routing[1..] == [HeaderSet(":path", path), HeaderSet(":authority", host)];
    assert routing[1..][1..] == [HeaderSet(":authority", host)];
    assert routing[1..][1..][1..] == [];
    assert LastSet(routing[1..][1..][1..], name) == None;
    assert LastSet(routing[1..][1..], name) == if name == ":authority" then Some(host) else None;
    assert |":method"| == 7 && |":path"| == 5 && |":authority"| == 10;
  }

  /** The client's headers as the upstream sees them after a reroute. */
  function Seen(client: map<string, string>, host: string, httpMethod: string, path: string, extra: map<string, string>,
                strip: seq<string>, order: Order): map<string, string>
  {
    Effect(client, Rerouted(host, httpMethod, path, [], extra, strip, order).headers.common)
  }

  predicate Removed(strip: seq<string>, name: string) {
    exists r :: r in REMOVE_ON_ROUTING + strip && ToLower(r) == name
  }

  /** Header by header: the endpoint's method, path and host; else what the last
      extra header of the name says; else the client's, unless it is removed. */
  lemma RerouteEffect(client: map<string, string>, host: string, httpMethod: string, path: string,
                   extra: map<string, string>, strip: seq<string>, order: Order, name: string)
    ensures Lookup(Seen(client, host, httpMethod, path, extra, strip, order), name) ==
      if name == ":method" then Some(httpMethod)
      else if name == ":path" then Some(path)
      else if name == ":authority" then Some(host)
      else
        var declared := LastSet(HeaderSets(extra, order(extra.Keys)), name);
        if declared.Some? then declared
        else if Removed(strip, name) then None
        else Lookup(client, name)
  {
    var kept := client - (set k | k in REMOVE_ON_ROUTING + strip :: ToLower(k));
    var sets := HeaderSets(extra, order(extra.Keys));
    SetByName(kept, sets + Routing(host, httpMethod, path), name);
    LastSetSplits(sets, Routing(host, httpMethod, path), name);
    RoutingByName(host, httpMethod, path, name);
    assert Lookup(kept, name) == if Removed(strip, name) then None else Lookup(client, name);
  }

  predicate Declares(extra: map<string, string>, name: string) {
    exists k :: k in extra && ToLower(k) == name
  }

  /** Some extra header of this name has this value. */
  predicate Gives(extra: map<string, string>, name: string, value: string) {
    exists k :: k in extra && ToLower(k) == name && extra[k] == value
  }

  lemma {:induction false} LastSetIsGiven(extra: map<string, string>, visited: seq<string>, name: string)
    requires forall k :: k in visited ==> k in extra
    ensures var last := LastSet(HeaderSets(extra, visited), name);
      && (last.Some? <==> exists k :: k in visited && ToLower(k) == name)
      && (last.Some? ==> Gives(extra, name, last.value))
  {
    if visited != [] {
      var rest := visited[1..];
      assert HeaderSets(extra, visited)[1..] == HeaderSets(extra, rest);
      assert visited == [visited[0]] + rest;
      LastSetIsGiven(extra, rest, name);
    }
  }

  lemma DeclaredIsSet(extra: map<string, string>, order: Order, name: string)
    ensures var last := LastSet(HeaderSets(extra, order(extra.Keys)), name);
      && (last.Some? <==> Declares(extra, name))
      && (last.Some? ==> Gives(extra, name, last.value))
  {
    LastSetIsGiven(extra, order(extra.Keys), name);
    assert forall k :: k in order(extra.Keys) <==> k in extra.Keys;
  }

  // ------------------------------------------ exactly when the order matters

  /** No two extra headers have the same name, up to case, and different values,
      but for the names that are overwritten anyway. */
  predicate Unambiguous(extra: map<string, string>) {
    forall k, k' :: k in extra && k' in extra && ToLower(k) == ToLower(k') && ToLower(k) !in ROUTING_NAMES ==>
      extra[k] == extra[k']
  }

  ghost predicate SeenIsFixed(client: map<string, string>, host: string, httpMethod: string, path: string,
                              extra: map<string, string>, strip: seq<string>)
  {
    forall o: Order, o': Order ::
      Seen(client, host, httpMethod, path, extra, strip, o) == Seen(client, host, httpMethod, path, extra, strip, o')
  }

  lemma SameLookupsSameMap(a: map<string, string>, b: map<string, string>)
    requires forall name :: Lookup(a, name) == Lookup(b, name)
    ensures a == b
  {
    forall name ensures name in a <==> name in b {
      assert Lookup(a, name) == Lookup(b, name);
    }
    forall name | name in a ensures a[name] == b[name] {
      assert Lookup(a, name) == Lookup(b, name);
    }
  }

  lemma UnambiguousIsFixed(client: map<string, string>, host: string, httpMethod: string, path: string,
                           extra: map<string, string>, strip: seq<string>, o: Order, o': Order)
    requires Unambiguous(extra)
    ensures Seen(client, host, httpMethod, path, extra, strip, o) == Seen(client, host, httpMethod, path, extra, strip, o')
  {
    var a, b := Seen(client, host, httpMethod, path, extra, strip, o), Seen(client, host, httpMethod, path, extra, strip, o');
    forall name ensures Lookup(a, name) == Lookup(b, name) {
      RerouteEffect(client, host, httpMethod, path, extra, strip, o, name);
      RerouteEffect(client, host, httpMethod, path, extra, strip, o', name);
      DeclaredIsSet(extra, o, name);
      DeclaredIsSet(extra, o', name);
    }
    SameLookupsSameMap(a, b);
  }

  lemma LastVisitedSets(extra: map<string, string>, rest: seq<string>, k: string)
    requires k in extra && forall r :: r in rest + [k] ==> r in extra
    ensures LastSet(HeaderSets(extra, rest + [k]), ToLower(k)) == Some(extra[k])
  {
    var last := [HeaderSet(k, extra[k])];
    forall r | r in rest ensures r in extra {
      assert r in rest + [k];
    }
    assert HeaderSets(extra, rest + [k]) == HeaderSets(extra, rest) + last;
    LastSetSplits(HeaderSets(extra, rest), last, ToLower(k));
    assert last[1..] == [] && LastSet([], ToLower(k)) == None;
  }

  /** Visited last, an extra header is the one that is seen. */
  lemma LastVisitedIsSeen(client: map<string, string>, host: string, httpMethod: string, path: string,
                          extra: map<string, string>, strip: seq<string>, k: string) returns (o: Order)
    requires k in extra && ToLower(k) !in ROUTING_NAMES
    ensures Lookup(Seen(client, host, httpMethod, path, extra, strip, o), ToLower(k)) == Some(extra[k])
  {
    var rest := SomeListing(extra.Keys - {k});
    ListingSnoc(rest, extra.Keys - {k}, k);
    assert extra.Keys - {k} + {k} == extra.Keys;
    o := OrderWith(rest + [k], extra.Keys);
    LastVisitedSets(extra, rest, k);
    RerouteEffect(client, host, httpMethod, path, extra, strip, o, ToLower(k));
  }

  lemma AmbiguousIsNotFixed(client: map<string, string>, host: string, httpMethod: string, path: string,
                            extra: map<string, string>, strip: seq<string>) returns (o: Order, o': Order)
    requires !Unambiguous(extra)
    ensures Seen(client, host, httpMethod, path, extra, strip, o) != Seen(client, host, httpMethod, path, extra, strip, o')
  {
    var k, k' :| k in extra && k' in extra && ToLower(k) == ToLower(k') && ToLower(k) !in ROUTING_NAMES && extra[k] != extra[k'];
    o := LastVisitedIsSeen(client, host, httpMethod, path, extra, strip, k);
    o' := LastVisitedIsSeen(client, host, httpMethod, path, extra, strip, k');
  }

  /** What the upstream sees is the same for every order of the extra headers
      exactly if they are unambiguous. */
  lemma SeenIsFixedExactlyIfUnambiguous(client: map<string, string>, host: string, httpMethod: string, path: string,
                                        extra: map<string, string>, strip: seq<string>)
    ensures SeenIsFixed(client, host, httpMethod, path, extra, strip) <==> Unambiguous(extra)
  {
    if Unambiguous(extra) {
      forall o: Order, o': Order
        ensures Seen(client, host, httpMethod, path, extra, strip, o) == Seen(client, host, httpMethod, path, extra, strip, o')
      {
        UnambiguousIsFixed(client, host, httpMethod, path, extra, strip, o, o');
      }
    } else {
      var o, o' := AmbiguousIsNotFixed(client, host, httpMethod, path, extra, strip);
    }
  }

  // -------------------------------------------------- what the upstream sees

  predicate IsMcpHeader(key: string) {
    key in ["mcp-protocol-version", "mcp-method", "mcp-name"] || "mcp-param-" <= key
  }

  /** The client's headers as a map, keyed in lower case. */
  ghost predicate ClientMap(headers: HeaderMap, client: map<string, string>) {
    forall k :: k in client ==> exists h :: h in headers && ToLower(h.key) == k
  }

  /** What reaches the upstream, by lower-case name: the endpoint's own method,
      path and host, even if a header parameter uses those names; under any other
      name that an extra header has in any case, the value of one of them; of the
      client's other headers all but the MCP and the content headers. */
  lemma WhatTheUpstreamSees(headers: HeaderMap, client: map<string, string>, host: string, httpMethod: string,
                            path: string, extra: map<string, string>, order: Order, name: string)
    requires ClientMap(headers, client)
    ensures var seen := Lookup(Seen(client, host, httpMethod, path, extra, Captured(headers).paramHeaderNames, order), name);
      && (name == ":method" ==> seen == Some(httpMethod))
      && (name == ":path" ==> seen == Some(path))
      && (name == ":authority" ==> seen == Some(host))
      && (name !in ROUTING_NAMES && Declares(extra, name) ==>
            && seen.Some? && Gives(extra, name, seen.value)
            && (Unambiguous(extra) ==> forall k :: k in extra && ToLower(k) == name ==> seen.value == extra[k]))
      && (name !in ROUTING_NAMES && !Declares(extra, name) ==>
            seen == if IsMcpHeader(name) || name in ["content-length", "content-type"] then None else Lookup(client, name))
      && (IsMcpHeader(name) ==> (seen.Some? <==> Declares(extra, name)))
  {
    var strip := Captured(headers).paramHeaderNames;
    RerouteEffect(client, host, httpMethod, path, extra, strip, order, name);
    DeclaredIsSet(extra, order, name);
    if name in client {
      RemovedFromClient(headers, client, name);
    }
    if IsMcpHeader(name) {
      RoutingIsNotMcp(name);
    }
  }

  /** Of a client's headers exactly the MCP and the content headers are removed. */
  lemma RemovedFromClient(headers: HeaderMap, client: map<string, string>, name: string)
    requires ClientMap(headers, client) && name in client
    ensures Removed(Captured(headers).paramHeaderNames, name) <==> IsMcpHeader(name) || name in CONTENT_HEADERS
  {
    var strip := Captured(headers).paramHeaderNames;
    forall r | r in REMOVE_ON_ROUTING + strip ensures ToLower(r) == r {
      RemovalsAreLower(headers, r);
    }
    ParamHeadersListed(headers, name);
    if IsMcpHeader(name) || name in CONTENT_HEADERS {
      assert name in REMOVE_ON_ROUTING + strip;
    }
  }

  lemma McpNamesAreLower()
    ensures ToLower(HEADER_PROTOCOL_VERSION) == HEADER_PROTOCOL_VERSION
    ensures ToLower(HEADER_METHOD) == HEADER_METHOD && ToLower(HEADER_NAME) == HEADER_NAME
  {
  }

  lemma RemovalsAreLower(headers: HeaderMap, r: string)
    requires r in REMOVE_ON_ROUTING + Captured(headers).paramHeaderNames
    ensures ToLower(r) == r
  {
    if r in CONTENT_HEADERS {
      assert ToLower("content-length") == "content-length" && ToLower("content-type") == "content-type";
    } else if r in REMOVE_ON_ROUTING {
      McpNamesAreLower();
    } else {
      ParamHeadersListed(headers, r);
      var h :| h in headers && ToLower(h.key) == r;
    }
  }

  lemma RoutingIsNotMcp(name: string)
    requires IsMcpHeader(name)
    ensures name !in ROUTING_NAMES
  {
    assert IsParamHeader(name) ==> name[0] == 'm';
  }

  lemma SpellingsOfAccept()
    ensures ToLower("Accept") == ToLower("accept") == "accept" != "Accept" && "accept" !in ROUTING_NAMES
  {
    assert "accept"[0] == 'a' && "Accept"[0] == 'A';
  }

  /** A header parameter spelled "Accept" beside the processor's own "accept":
      the order decides whether the upstream sees the argument. */
  lemma SpellingsOfAcceptClash(client: map<string, string>, host: string, httpMethod: string, path: string, strip: seq<string>,
                               value: string)
    requires value != "*/*"
    ensures !SeenIsFixed(client, host, httpMethod, path, map["accept" := "*/*", "Accept" := value], strip)
  {
    var extra := map["accept" := "*/*", "Accept" := value];
    SpellingsOfAccept();
    assert "accept" in extra && "Accept" in extra && extra["accept"] != extra["Accept"];
    SeenIsFixedExactlyIfUnambiguous(client, host, httpMethod, path, extra, strip);
  }
}

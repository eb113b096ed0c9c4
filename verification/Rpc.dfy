/** JSON and JSON-RPC values, and the library functions that read and write
    them. Decoding and encoding are parameters of the model: every theorem holds
    for all of them. */
module Rpc {
  import opened Common

  datatype Json =
    | Null
    | Boolean(b: bool)
    | Number(n: real)
    | Text(s: string)
    | Array(elements: seq<Json>)
    | Object(fields: map<string, Json>)

  /** jsonrpc.ID: absent, a number or a string. */
  datatype Id = NoId | NumberId(n: int) | TextId(s: string) {
    predicate IsValid() { !NoId? }
  }

  /** One field of a request's params, decoded into the type its reader wants. */
  datatype Field<+T> = Missing | Malformed | Given(value: T)

  /** What the params of a request hold for the readers in the processor.
      `decodable` says that the bytes are a JSON object (or null) at all. */
  datatype Params = Params(
    decodable: bool,
    metaVersion: Field<string>,
    name: Field<string>,
    arguments: Field<map<string, Json>>,
    handshakeVersion: Field<string>)

  datatype Call = Call(id: Id, methodName: string, params: Params) {
    function Method(): Method { MethodOf(methodName) }
  }

  /** jsonrpc.DecodeMessage: an error, a response, or a request. */
  datatype Message = Undecodable | NotARequest | RequestMessage(call: Call)

  const METHOD_INITIALIZE := "initialize"
  const METHOD_INITIALIZED := "notifications/initialized"
  const METHOD_DISCOVER := "server/discover"
  const METHOD_TOOLS_LIST := "tools/list"
  const METHOD_TOOLS_CALL := "tools/call"

  /** The method a request names, as the processor's switches tell them apart. */
  datatype Method = Initialize | Initialized | Discover | ToolsList | ToolsCall | Other

  function MethodOf(methodName: string): Method {
    if methodName == METHOD_INITIALIZE then Initialize
    else if methodName == METHOD_INITIALIZED then Initialized
    else if methodName == METHOD_DISCOVER then Discover
    else if methodName == METHOD_TOOLS_LIST then ToolsList
    else if methodName == METHOD_TOOLS_CALL then ToolsCall
    else Other
  }

  /** The names the methods are told apart by. */
  lemma MethodsDiffer(methodName: string)
    ensures MethodOf(methodName) == Initialize <==> methodName == "initialize"
    ensures MethodOf(methodName) == Initialized <==> methodName == "notifications/initialized"
    ensures MethodOf(methodName) == Discover <==> methodName == "server/discover"
    ensures MethodOf(methodName) == ToolsList <==> methodName == "tools/list"
    ensures MethodOf(methodName) == ToolsCall <==> methodName == "tools/call"
  {
    assert METHOD_INITIALIZE[0] == 'i' && METHOD_INITIALIZED[0] == 'n' && METHOD_DISCOVER[0] == 's';
    assert METHOD_TOOLS_LIST[0] == 't' && METHOD_TOOLS_CALL[0] == 't';
    assert METHOD_TOOLS_LIST[6] == 'l' && METHOD_TOOLS_CALL[6] == 'c';
  }

  // Section 5.1 of the JSON-RPC 2.0 Specification.
  const PARSE_ERROR := -32700
  const INVALID_REQUEST := -32600
  const METHOD_NOT_FOUND := -32601
  const INVALID_PARAMS := -32602
  const INTERNAL_ERROR := -32603
  // The codes of the 2026-07-28 revision.
  const HEADER_MISMATCH := -32020
  const UNSUPPORTED_PROTOCOL_VERSION := -32022

  /** callToolNameParams: only the name. An absent name decodes to "". */
  function DecodeName(params: Params): Option<string> {
    if !params.decodable || params.name.Malformed? then None
    else Some(if params.name.Given? then params.name.value else "")
  }

  /** callToolRequestParams: the name and the arguments. */
  function DecodeToolCall(params: Params): Option<(string, map<string, Json>)> {
    if DecodeName(params).None? || params.arguments.Malformed? then None
    else Some((DecodeName(params).value, if params.arguments.Given? then params.arguments.value else map[]))
  }

  /** "" when the entry is absent or malformed. */
  function MetaProtocolVersion(params: Params): string {
    if params.decodable && params.metaVersion.Given? then params.metaVersion.value else ""
  }

  // ------------------------------------------------------- in its own names

  /** The name and the arguments a tools/call is read as: an absent name is empty,
      absent arguments are none, and malformed ones are refused. */
  lemma ToolCallRead(params: Params)
    ensures DecodeToolCall(params).Some? <==> params.decodable && !params.name.Malformed? && !params.arguments.Malformed?
    ensures DecodeToolCall(params).Some? ==>
      var (name, arguments) := DecodeToolCall(params).value;
      && (forall n :: params.name == Given(n) ==> name == n)
      && (params.name.Missing? ==> name == "")
      && (forall a :: params.arguments == Given(a) ==> arguments == a)
      && (params.arguments.Missing? ==> arguments == map[])
  {
  }

  /** The version a body declares in _meta, "" if it declares none. */
  lemma VersionRead(params: Params)
    ensures forall v :: params.decodable && params.metaVersion == Given(v) ==> MetaProtocolVersion(params) == v
    ensures !params.decodable || !params.metaVersion.Given? ==> MetaProtocolVersion(params) == ""
  {
  }
}

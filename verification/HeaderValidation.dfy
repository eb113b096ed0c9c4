/** The MCP headers a request mirrors, and their validation against the body:
    header_validation.go. */
module HeaderValidation {
  import opened Common
  import opened Text
  import opened Rpc
  import opened Wire
  import Base64
  import Registry

  const HEADER_PROTOCOL_VERSION := "mcp-protocol-version"
  const HEADER_METHOD := "mcp-method"
  const HEADER_NAME := "mcp-name"
  const HEADER_PARAM_PREFIX := "mcp-param-"

  const BASE64_PREFIX: Bytes := "=?base64?"
  const BASE64_SUFFIX: Bytes := "?="

  /** The headers kept for the body phase; an absent one is the empty string. */
  datatype McpRequestHeaders = McpRequestHeaders(
    protocolVersion: string,
    methodName: string,
    name: string,
    paramHeaderNames: seq<string>)

  /** The trimmed value of the first header with this lower-case key. */
  function FirstValue(headers: HeaderMap, key: string): string {
    if headers == [] then ""
    else if Matches(headers[0], key) then TrimSpace(headers[0].raw)
    else FirstValue(headers[1..], key)
  }

  predicate IsParamHeader(key: string) {
    HEADER_PARAM_PREFIX <= key
  }

  function ParamHeaderNames(headers: HeaderMap): seq<string> {
    if headers == [] then []
    else
      var key := ToLower(headers[0].key);
      (if IsParamHeader(key) then [key] else []) + ParamHeaderNames(headers[1..])
  }

  function Captured(headers: HeaderMap): McpRequestHeaders {
    McpRequestHeaders(
      FirstValue(headers, HEADER_PROTOCOL_VERSION),
      FirstValue(headers, HEADER_METHOD),
      FirstValue(headers, HEADER_NAME),
      ParamHeaderNames(headers))
  }

  class FirstHeaderValue {
    var value: string
    var seen: bool

    constructor ()
      ensures value == "" && !seen
    {
      value, seen := "", false;
    }

    method Capture(h: HeaderValue)
      modifies this
      ensures seen
      ensures value == if old(seen) then old(value) else TrimSpace(h.raw)
    {
      if seen {
        return;
      }
      value, seen := TrimSpace(h.raw), true;
    }
  }

  /** What a cell that has seen part of the headers will end up with. */
  function Eventually(seen: bool, value: string, rest: HeaderMap, key: string): string {
    if seen then value else FirstValue(rest, key)
  }

  lemma KeysDiffer()
    ensures HEADER_PROTOCOL_VERSION != HEADER_METHOD && HEADER_METHOD != HEADER_NAME && HEADER_NAME != HEADER_PROTOCOL_VERSION
    ensures !IsParamHeader(HEADER_PROTOCOL_VERSION) && !IsParamHeader(HEADER_METHOD) && !IsParamHeader(HEADER_NAME)
  {
    assert HEADER_PROTOCOL_VERSION[5] == 'r' && HEADER_PARAM_PREFIX[5] == 'a';
    assert HEADER_METHOD[4] == 'm' && HEADER_NAME[4] == 'n' && HEADER_PARAM_PREFIX[4] == 'p';
  }

  lemma OneHeaderMore(headers: HeaderMap, i: nat, seen: bool, value: string, key: string)
    requires i < |headers|
    ensures Eventually(seen, value, headers[i..], key) ==
      if Matches(headers[i], key) then Eventually(true, if seen then value else TrimSpace(headers[i].raw), headers[i + 1..], key)
      else Eventually(seen, value, headers[i + 1..], key)
  {
    assert headers[i..][1..] == headers[i + 1..];
  }

  predicate Matches(h: HeaderValue, key: string) {
    ToLower(h.key) == key
  }

  /** One turn of the capturing loop: the header goes to the cell of its key, or
      to the list of parameter headers. */
  method CaptureHeader(h: HeaderValue, protocolVersion: FirstHeaderValue, methodName: FirstHeaderValue, name: FirstHeaderValue)
    returns (paramNames: seq<string>)
    requires protocolVersion != methodName && methodName != name && name != protocolVersion
    modifies protocolVersion, methodName, name
    ensures if Matches(h, HEADER_PROTOCOL_VERSION)
      then protocolVersion.seen && protocolVersion.value == (if old(protocolVersion.seen) then old(protocolVersion.value) else TrimSpace(h.raw))
      else unchanged(protocolVersion)
    ensures if Matches(h, HEADER_METHOD)
      then methodName.seen && methodName.value == (if old(methodName.seen) then old(methodName.value) else TrimSpace(h.raw))
      else unchanged(methodName)
    ensures if Matches(h, HEADER_NAME)
      then name.seen && name.value == (if old(name.seen) then old(name.value) else TrimSpace(h.raw))
      else unchanged(name)
    ensures paramNames == ParamHeaderNames([h])
  {
    KeysDiffer();
    assert [h][1..] == [];
    paramNames := [];
    var key := ToLower(h.key);
    if key == HEADER_PROTOCOL_VERSION {
      protocolVersion.Capture(h);
    } else if key == HEADER_METHOD {
      methodName.Capture(h);
    } else if key == HEADER_NAME {
      name.Capture(h);
    } else if IsParamHeader(key) {
      paramNames := [key];
    }
  }

  /** The cell will end up with `target` once it has seen the rest. */
  ghost predicate WillHold(cell: FirstHeaderValue, rest: HeaderMap, key: string, target: string)
    reads cell
  {
    Eventually(cell.seen, cell.value, rest, key) == target && (!cell.seen ==> cell.value == "")
  }

  method CaptureMCPRequestHeaders(headers: HeaderMap) returns (captured: McpRequestHeaders)
    ensures captured == Captured(headers)
  {
    var protocolVersion := new FirstHeaderValue();
    var methodName := new FirstHeaderValue();
    var name := new FirstHeaderValue();
    var paramHeaderNames: seq<string> := [];
    ghost var all := Captured(headers);
    for i := 0 to |headers|
      invariant protocolVersion != methodName && methodName != name && name != protocolVersion
      invariant fresh(protocolVersion) && fresh(methodName) && fresh(name)
      invariant WillHold(protocolVersion, headers[i..], HEADER_PROTOCOL_VERSION, all.protocolVersion)
      invariant WillHold(methodName, headers[i..], HEADER_METHOD, all.methodName)
      invariant WillHold(name, headers[i..], HEADER_NAME, all.name)
      invariant paramHeaderNames + ParamHeaderNames(headers[i..]) == all.paramHeaderNames
    {
      OneHeaderMore(headers, i, protocolVersion.seen, protocolVersion.value, HEADER_PROTOCOL_VERSION);
      OneHeaderMore(headers, i, methodName.seen, methodName.value, HEADER_METHOD);
      OneHeaderMore(headers, i, name.seen, name.value, HEADER_NAME);
      OneParamMore(headers, i);
      var paramNames := CaptureHeader(headers[i], protocolVersion, methodName, name);
      Associates(paramHeaderNames, paramNames, ParamHeaderNames(headers[i + 1..]));
      paramHeaderNames := paramHeaderNames + paramNames;
    }
    captured := McpRequestHeaders(protocolVersion.value, methodName.value, name.value, paramHeaderNames);
  }

  lemma OneParamMore(headers: HeaderMap, i: nat)
    requires i < |headers|
    ensures ParamHeaderNames(headers[i..]) == ParamHeaderNames([headers[i]]) + ParamHeaderNames(headers[i + 1..])
  {
    assert headers[i..][1..] == headers[i + 1..];
    assert [headers[i]][1..] == [];
  }

  /** Unwraps the Base64 sentinel; None is an invalid payload. */
  function DecodeHeaderValue(value: string): Option<string> {
    if BASE64_PREFIX <= value && HasSuffix(value[|BASE64_PREFIX|..], BASE64_SUFFIX) then
      var encoded := value[|BASE64_PREFIX|..];
      Base64.Decode(encoded[..|encoded| - |BASE64_SUFFIX|])
    else Some(value)
  }

  predicate HasSuffix(s: string, suffix: string) {
    |suffix| <= |s| && s[|s| - |suffix|..] == suffix
  }

  datatype HeaderError =
    | MissingVersionHeader
    | NoVersionInBody
    | VersionMismatch
    | MissingMethodHeader
    | MethodMismatch
    | MissingNameHeader
    | InvalidBase64
    | NoNameInBody
    | NameMismatch

  function ValidateModernHeaders(call: Call, metaVersion: string, hdrs: McpRequestHeaders): Option<HeaderError> {
    if hdrs.protocolVersion == "" then Some(MissingVersionHeader)
    else if metaVersion == "" then Some(NoVersionInBody)
    else if hdrs.protocolVersion != metaVersion then Some(VersionMismatch)
    else if hdrs.methodName == "" then Some(MissingMethodHeader)
    else if hdrs.methodName != call.methodName then Some(MethodMismatch)
    else if call.Method().ToolsCall? then
      if hdrs.name == "" then Some(MissingNameHeader)
      else
        var decoded := DecodeHeaderValue(hdrs.name);
        if decoded.None? then Some(InvalidBase64)
        else
          var name := DecodeName(call.params);
          if name.None? || name.value == "" then Some(NoNameInBody)
          else if decoded.value != name.value then Some(NameMismatch)
          else None
    else None
  }

  /** The headers are accepted exactly if the mirrored version and method are
      non-empty and those of the body, and for a tool call the decoded name is. */
  lemma ModernHeadersAccepted(call: Call, metaVersion: string, hdrs: McpRequestHeaders)
    ensures ValidateModernHeaders(call, metaVersion, hdrs).None? <==>
      && hdrs.protocolVersion == metaVersion != ""
      && hdrs.methodName == call.methodName != ""
      && (call.Method().ToolsCall? ==>
            && hdrs.name != ""
            && DecodeName(call.params).Some?
            && DecodeName(call.params).value != ""
            && DecodeHeaderValue(hdrs.name) == DecodeName(call.params))
  {
  }

  // -------------------------------------------------- spellings of a name

  function Wrapped(s: Bytes): Bytes {
    BASE64_PREFIX + Base64.Encode(s) + BASE64_SUFFIX
  }

  /** Decoding undoes wrapping, for every byte string. */
  lemma WrappedRoundTrip(s: Bytes)
    ensures DecodeHeaderValue(Wrapped(s)) == Some(s)
  {
    var value, encoded := Wrapped(s), Base64.Encode(s) + BASE64_SUFFIX;
    assert value == BASE64_PREFIX + encoded;
    assert value[|BASE64_PREFIX|..] == encoded;
    assert encoded[|encoded| - |BASE64_SUFFIX|..] == BASE64_SUFFIX;
    assert encoded[..|encoded| - |BASE64_SUFFIX|] == Base64.Encode(s);
    Base64.RoundTrip(s);
  }

  /** A registered tool's name is never mistaken for a wrapped value. */
  lemma ToolNamePassesThrough(name: string)
    requires Registry.ValidToolName(name)
    ensures DecodeHeaderValue(name) == Some(name)
    ensures TrimSpace(name) == name
  {
    assert name[0] in name;
    assert BASE64_PREFIX[0] == '=';
    assert name[|name| - 1] in name;
  }

  lemma WrappedSurvivesTrimming(s: Bytes)
    ensures TrimSpace(Wrapped(s)) == Wrapped(s)
  {
    assert Wrapped(s)[0] == '=' && Wrapped(s)[|Wrapped(s)| - 1] == '=';
  }

  /** A tool name sent bare or wrapped gets the same verdict, also after the
      trimming done when the header is captured. */
  lemma EitherSpelling(call: Call, metaVersion: string, hdrs: McpRequestHeaders, name: Bytes)
    requires Registry.ValidToolName(name)
    ensures var bare, wrapped := hdrs.(name := TrimSpace(name)), hdrs.(name := TrimSpace(Wrapped(name)));
      ValidateModernHeaders(call, metaVersion, bare) == ValidateModernHeaders(call, metaVersion, wrapped)
  {
    ToolNamePassesThrough(name);
    WrappedSurvivesTrimming(name);
    WrappedRoundTrip(name);
  }

  /** Capturing keeps the first header with each of the three names, in any
      spelling of the name, trimmed; without one the value is empty. */
  lemma {:induction false} FirstValueIsFirst(headers: HeaderMap, key: string, i: nat)
    requires i <= |headers|
    requires forall j :: 0 <= j < i ==> !Matches(headers[j], key)
    requires i < |headers| ==> Matches(headers[i], key)
    ensures FirstValue(headers, key) == if i < |headers| then TrimSpace(headers[i].raw) else ""
  {
    if i > 0 {
      assert !Matches(headers[0], key);
      FirstValueIsFirst(headers[1..], key, i - 1);
    }
  }

  lemma {:induction false} ParamHeadersListed(headers: HeaderMap, name: string)
    ensures name in ParamHeaderNames(headers) <==>
      IsParamHeader(name) && exists h :: h in headers && ToLower(h.key) == name
  {
    if headers != [] {
      ParamHeadersListed(headers[1..], name);
      assert headers == [headers[0]] + headers[1..];
      assert headers[0] in headers;
    }
  }

  // ------------------------------------------- in the client's own headers

  /** Where the first header of this name, in any case, is; the number of headers
      if there is none. */
  function FirstNamed(headers: HeaderMap, name: string): (i: nat)
    ensures i <= |headers|
    ensures forall j :: 0 <= j < i ==> ToLower(headers[j].key) != name
    ensures i < |headers| ==> ToLower(headers[i].key) == name
  {
    if headers == [] || ToLower(headers[0].key) == name then 0 else 1 + FirstNamed(headers[1..], name)
  }

  /** The trimmed value of the first header of this name, "" if there is none. */
  function ValueOf(headers: HeaderMap, name: string): string {
    var i := FirstNamed(headers, name);
    if i < |headers| then TrimSpace(headers[i].raw) else ""
  }

  /** What is captured from which header. */
  lemma CapturedFrom(headers: HeaderMap)
    ensures var c := Captured(headers);
      && c.protocolVersion == ValueOf(headers, "mcp-protocol-version")
      && c.methodName == ValueOf(headers, "mcp-method")
      && c.name == ValueOf(headers, "mcp-name")
      && forall n :: n in c.paramHeaderNames <==> "mcp-param-" <= n && exists h :: h in headers && ToLower(h.key) == n
  {
    FirstValueIsFirst(headers, "mcp-protocol-version", FirstNamed(headers, "mcp-protocol-version"));
    FirstValueIsFirst(headers, "mcp-method", FirstNamed(headers, "mcp-method"));
    FirstValueIsFirst(headers, "mcp-name", FirstNamed(headers, "mcp-name"));
    forall n ensures n in ParamHeaderNames(headers) <==> "mcp-param-" <= n && exists h :: h in headers && ToLower(h.key) == n {
      ParamHeadersListed(headers, n);
    }
  }

  /** The payload in the sentinel is decoded; a value that is not in the sentinel
      is taken as it is. */
  lemma Unwrapping(value: string, payload: string)
    ensures DecodeHeaderValue("=?base64?" + payload + "?=") == Base64.Decode(payload)
    ensures (forall p :: value != "=?base64?" + p + "?=") ==> DecodeHeaderValue(value) == Some(value)
  {
    WrappedPayload("=?base64?" + payload + "?=", payload);
    if BASE64_PREFIX <= value && HasSuffix(value[|BASE64_PREFIX|..], BASE64_SUFFIX) {
      var p := PayloadOf(value);
    }
  }

  lemma PayloadOf(value: string) returns (payload: string)
    requires BASE64_PREFIX <= value && HasSuffix(value[|BASE64_PREFIX|..], BASE64_SUFFIX)
    ensures value == "=?base64?" + payload + "?="
  {
    var encoded := value[|BASE64_PREFIX|..];
    payload := encoded[..|encoded| - |BASE64_SUFFIX|];
    assert encoded == payload + BASE64_SUFFIX;
    assert value == BASE64_PREFIX + encoded;
    Associates(BASE64_PREFIX, payload, BASE64_SUFFIX);
  }

  lemma WrappedPayload(value: string, payload: string)
    requires value == "=?base64?" + payload + "?="
    ensures DecodeHeaderValue(value) == Base64.Decode(payload)
  {
    var encoded := payload + "?=";
    assert value == "=?base64?" + encoded;
    assert value[|BASE64_PREFIX|..] == encoded;
    assert encoded[|encoded| - |BASE64_SUFFIX|..] == "?=";
    assert encoded[..|encoded| - |BASE64_SUFFIX|] == payload;
  }

  /** The body names the tool `name`. */
  predicate Names(call: Call, name: string) {
    call.params.decodable && call.params.name == Given(name) && name != ""
  }

  /** A modern request's headers are accepted exactly if the first
      mcp-protocol-version is the body's version, the first mcp-method the body's
      method and, for tools/call, the first mcp-name, unwrapped, the body's tool. */
  lemma AcceptedExactlyIfMirrored(call: Call, metaVersion: string, headers: HeaderMap)
    ensures ValidateModernHeaders(call, metaVersion, Captured(headers)).None? <==>
      && ValueOf(headers, "mcp-protocol-version") == metaVersion != ""
      && ValueOf(headers, "mcp-method") == call.methodName != ""
      && (call.methodName == "tools/call" ==>
            && ValueOf(headers, "mcp-name") != ""
            && exists name :: Names(call, name) && DecodeHeaderValue(ValueOf(headers, "mcp-name")) == Some(name))
  {
    CapturedFrom(headers);
    MethodsDiffer(call.methodName);
    ModernHeadersAccepted(call, metaVersion, Captured(headers));
    if call.params.decodable && call.params.name.Given? && call.params.name.value != "" {
      assert Names(call, call.params.name.value);
    }
  }

  /** In particular a tools/call of a valid tool name that is mirrored in the three
      headers, bare or wrapped, is accepted. */
  lemma MirroredToolCallIsAccepted(call: Call, name: Bytes, headers: HeaderMap)
    requires call.methodName == "tools/call" && Names(call, name) && Registry.ValidToolName(name)
    requires ValueOf(headers, "mcp-protocol-version") == "2026-07-28" && ValueOf(headers, "mcp-method") == "tools/call"
    requires ValueOf(headers, "mcp-name") in [name, "=?base64?" + Base64.Encode(name) + "?="]
    ensures ValidateModernHeaders(call, "2026-07-28", Captured(headers)).None?
  {
    ToolNamePassesThrough(name);
    Unwrapping(name, Base64.Encode(name));
    Base64.RoundTrip(name);
    AcceptedExactlyIfMirrored(call, "2026-07-28", headers);
  }
}
